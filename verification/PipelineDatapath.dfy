/**
 One instruction through the pipeline's datapath, without any overlap, is one instruction of the
 scalar CPU.
 */
module PipelineDatapath {
  import opened Isa
  import opened Wrappers
  import opened Pipeline

  /** What ID, EX and MEM produce for the instruction at `s` when it runs alone. */
  function OpAt<M, S>(env: Platform<M, S>, s: State<M, S>): Op {
    DecodeId(FetchEntry(env, s.sys, s.pc, s.mode))
  }

  function EmAt<M, S>(env: Platform<M, S>, s: State<M, S>): ExMem {
    Executed(env, s, FetchEntry(env, s.sys, s.pc, s.mode))
  }

  function WbAt<M, S>(env: Platform<M, S>, s: State<M, S>): MemWb {
    MemStage(env, s.sys, s.mem, EmAt(env, s)).0
  }

  /** The instruction at `s` empties the pipeline: it traps, or is MTSR, IRET or HALT. */
  predicate Flushes<M, S>(env: Platform<M, S>, s: State<M, S>) {
    var em := EmAt(env, s);
    em.exception.Some? || em.mtsr.Some? || em.iret || em.halt || MemCheck(env, s.sys, em).Some?
  }

  predicate Ready<M, S>(s: State<M, S>) {
    s.running && s.reg[0] == 0
  }

  /** The scalar CPU's state after the MEM/WB entry `wb` of `s` retires without flushing. */
  function Retired<M, S>(env: Platform<M, S>, s: State<M, S>, wb: MemWb, mem: M): State<M, S> {
    s.(reg := WriteBack(env, s.reg, wb),
       pc := if wb.taken then wb.target else Next(s.pc, s.mode),
       mode := if wb.newMode.Some? then wb.newMode.value else s.mode,
       mem := mem, executed := s.executed + 1)
  }

  lemma WriteBackIsSetReg<M, S>(env: Platform<M, S>, reg: Regs, wb: MemWb)
    requires reg[0] == 0
    ensures WriteBack(env, reg, wb)
         == var r := if wb.cpuid then SetReg(SetReg(reg, REG_CPUID, CPU_ID), REG_FEATURES, env.features) else reg;
            if wb.dest.Some? then SetReg(r, wb.dest.value, wb.value) else r
  {
  }

  /** Shape of an EX result: it keeps its PC and mode, only a taken jump changes the mode, and an
      instruction that flushes at commit neither jumps nor touches memory nor writes a register. */
  predicate WellShaped<M, S>(s: State<M, S>, em: ExMem) {
    var system := em.exception.Some? || em.mtsr.Some? || em.iret || em.halt;
    && em.pc == s.pc && em.mode == s.mode
    && (em.newMode.Some? ==> em.taken)
    && !(em.isLoad && em.isStore)
    && (em.isLoad ==> em.dest.Some? && !em.cpuid && !em.taken)
    && (em.cpuid ==> em.dest.None?)
    && (system ==> !em.isLoad && !em.isStore && !em.taken && em.newMode.None? && em.dest.None? && !em.cpuid)
    && (em.exception.Some? ==> em.mtsr.None? && !em.iret && !em.halt)
    && (em.mtsr.Some? ==> !em.iret && !em.halt)
    && (em.iret ==> !em.halt)
  }

  /** `t` is what the EX result `em` of state `s` leads to once it has gone through MEM and WB. */
  ghost predicate LeadsTo<M, S>(env: Platform<M, S>, s: State<M, S>, em: ExMem, t: State<M, S>) {
    var s' := s.(executed := s.executed + 1);
    var next := Next(s.pc, s.mode);
    if em.exception.Some? then
      var e := em.exception.value;
      t == EnterException(env, if IsFetchFault(e) then s else s', e, if e.SyscallTrap? then next else s.pc)
    else if em.mtsr.Some? then
      t == match env.writeSr(s.sys, s.reg, em.mtsr.value.0, em.mtsr.value.1)
           case Some(w) => s'.(sys := w.0, reg := w.1, pc := next)
           case None => EnterException(env, s', IllegalInstruction, s.pc)
    else if em.iret then
      var (sys, reg, pc, mode) := env.iret(s.sys, s.reg);
      t == s'.(sys := sys, reg := reg, pc := pc, mode := mode)
    else if em.halt then t == s'.(pc := next, running := false)
    else match MemCheck(env, s.sys, em)
      case Some(e) => t == DataFault(env, s', e, s.pc)
      case None =>
        var (wb, mem) := MemStage(env, s.sys, s.mem, em);
        t == Retired(env, s, wb, mem)
  }

  function Executed<M, S>(env: Platform<M, S>, s: State<M, S>, f: IfId): ExMem {
    var op := DecodeId(f);
    ExecuteEx(env, s.sys, s.reg, op, ReadReg(s.reg, op.srcA), ReadReg(s.reg, op.srcB))
  }

  predicate SystemInstr(i: Instr) {
    Privileged(i) || i.Syscall? || i.Unknown?
  }

  lemma SystemDatapath<M, S>(env: Platform<M, S>, s: State<M, S>, i: Instr)
    requires s.reg[0] == 0 && s.mode == Normal && SystemInstr(i)
    ensures var em := Executed(env, s, IfId(s.pc, Normal, N(i), None));
            && WellShaped(s, em)
            && LeadsTo(env, s, em, ExecuteNormal(env, s.(executed := s.executed + 1), i))
  {
    hide WriteBack, SetReg, ReadReg, Plus, MergeLow, MergeHigh, Narrow, EnterException;
    var em := Executed(env, s, IfId(s.pc, Normal, N(i), None));
    WriteBackIsSetReg(env, s.reg, MemStage(env, s.sys, s.mem, em).0);
  }

  lemma AccessDatapath<M, S>(env: Platform<M, S>, s: State<M, S>, i: Instr)
    requires s.reg[0] == 0 && s.mode == Normal && !SystemInstr(i) && (i.Load? || i.Store?)
    ensures var em := Executed(env, s, IfId(s.pc, Normal, N(i), None));
            && WellShaped(s, em)
            && LeadsTo(env, s, em, ExecuteNormal(env, s.(executed := s.executed + 1), i))
  {
    hide WriteBack, SetReg, ReadReg, Plus, MergeLow, MergeHigh, Narrow, EnterException;
    var em := Executed(env, s, IfId(s.pc, Normal, N(i), None));
    WriteBackIsSetReg(env, s.reg, MemStage(env, s.sys, s.mem, em).0);
  }

  lemma PlainDatapath<M, S>(env: Platform<M, S>, s: State<M, S>, i: Instr)
    requires s.reg[0] == 0 && s.mode == Normal && !SystemInstr(i) && !i.Load? && !i.Store?
    ensures var em := Executed(env, s, IfId(s.pc, Normal, N(i), None));
            && WellShaped(s, em)
            && LeadsTo(env, s, em, ExecuteNormal(env, s.(executed := s.executed + 1), i))
  {
    hide WriteBack, SetReg, ReadReg, Plus, MergeLow, MergeHigh, Narrow, EnterException;
    var em := Executed(env, s, IfId(s.pc, Normal, N(i), None));
    WriteBackIsSetReg(env, s.reg, MemStage(env, s.sys, s.mem, em).0);
  }

  lemma UserDatapath<M, S>(env: Platform<M, S>, s: State<M, S>, i: Instr)
    requires s.reg[0] == 0 && s.mode == Normal && !SystemInstr(i)
    ensures var em := Executed(env, s, IfId(s.pc, Normal, N(i), None));
            && WellShaped(s, em)
            && LeadsTo(env, s, em, ExecuteNormal(env, s.(executed := s.executed + 1), i))
  {
    hide Executed, LeadsTo, WellShaped, ExecuteNormal;
    if i.Load? || i.Store? {
      AccessDatapath(env, s, i);
    } else {
      PlainDatapath(env, s, i);
    }
  }

  lemma NormalDatapath<M, S>(env: Platform<M, S>, s: State<M, S>, i: Instr)
    requires s.reg[0] == 0 && s.mode == Normal
    ensures var em := Executed(env, s, IfId(s.pc, Normal, N(i), None));
            && WellShaped(s, em)
            && LeadsTo(env, s, em, ExecuteNormal(env, s.(executed := s.executed + 1), i))
  {
    hide Executed, LeadsTo, WellShaped, ExecuteNormal;
    if SystemInstr(i) {
      SystemDatapath(env, s, i);
    } else {
      UserDatapath(env, s, i);
    }
  }

  lemma ShortDatapath<M, S>(env: Platform<M, S>, s: State<M, S>, i: ShortInstr)
    requires s.reg[0] == 0 && s.mode == Short
    ensures var em := Executed(env, s, IfId(s.pc, Short, Sh(i), None));
            && WellShaped(s, em)
            && LeadsTo(env, s, em, ExecuteShort(env, s.(executed := s.executed + 1), i))
  {
    hide WriteBack, SetReg, ReadReg, Plus, EnterException, Gpr;
    var em := Executed(env, s, IfId(s.pc, Short, Sh(i), None));
    WriteBackIsSetReg(env, s.reg, MemStage(env, s.sys, s.mem, em).0);
  }

  /** A refused fetch. */
  lemma FaultDatapath<M(!new), S(!new)>(env: Platform<M, S>, s: State<M, S>)
    requires Wired(env) && Ready(s) && FetchEntry(env, s.sys, s.pc, s.mode).fault.Some?
    ensures WellShaped(s, EmAt(env, s))
    ensures LeadsTo(env, s, EmAt(env, s), Step(env, s))
  {
    hide EnterException;
  }

  /** The datapath theorem: for every state, the EX result leads to the scalar CPU's next state. */
  lemma DatapathIsStep<M(!new), S(!new)>(env: Platform<M, S>, s: State<M, S>)
    requires Wired(env) && Ready(s)
    ensures WellShaped(s, EmAt(env, s))
    ensures LeadsTo(env, s, EmAt(env, s), Step(env, s))
  {
    hide Wired, Executed, LeadsTo, WellShaped, ExecuteNormal, ExecuteShort, EnterException;
    var f := FetchEntry(env, s.sys, s.pc, s.mode);
    if f.fault.Some? {
      FaultDatapath(env, s);
    } else if s.mode == Normal {
      NormalDatapath(env, s, env.normal(s.sys, s.pc));
      assert f == IfId(s.pc, Normal, N(env.normal(s.sys, s.pc)), None);
    } else {
      ShortDatapath(env, s, env.short(s.sys, s.pc));
      assert f == IfId(s.pc, Short, Sh(env.short(s.sys, s.pc)), None);
    }
  }

  /** The hazard unit looks at exactly the registers that decode reads. */
  lemma HazardSourcesMatchDecode(f: IfId, r: Reg)
    requires f.fault.Some? ==> f.insn == N(Nop)
    requires r != 0
    ensures var (a, b) := HazardSources(f.insn);
            (r == a || r == b) <==> (r == DecodeId(f).srcA || r == DecodeId(f).srcB)
  {
  }
}
