/**
 The pipelined CPU as the object the emulator clocks: its methods update the four pipeline
 registers in place, and each is proved to compute the clock the theorems are about.
 */
module PipelineCpu {
  import opened Isa
  import opened Wrappers
  import P = Pipeline
  import opened PipelineTheorems

  class Cpu<M, S> {
    const env: Platform<M, S>
    var reg: Regs
    var fetchPc: Word
    var fetchMode: Mode
    var retirePc: Word
    var retireMode: Mode
    var running: bool
    var sys: S
    var mem: M
    var executed: nat
    var ifId: P.Slot<P.IfId>
    var idEx: P.Slot<P.IdEx>
    var exMem: P.Slot<P.ExMem>
    var memWb: P.Slot<P.MemWb>
    var exLeft: nat
    var exArmed: bool
    var cacheStall: nat

    function Value(): P.Pipe<M, S>
      reads this
    {
      P.Pipe(reg, fetchPc, fetchMode, retirePc, retireMode, running, sys, mem, executed,
             ifId, idEx, exMem, memWb, exLeft, exArmed, cacheStall)
    }

    constructor (env: Platform<M, S>, pc: Word, sys: S, mem: M)
      ensures this.env == env
      ensures Value() == P.Reset(seq(32, i => 0), pc, Normal, sys, mem)
    {
      this.env := env;
      reg := seq(32, i => 0);
      fetchPc, retirePc, fetchMode, retireMode, running := pc, pc, Normal, Normal, true;
      this.sys, this.mem, executed := sys, mem, 0;
      ifId, idEx, exMem, memWb := P.Empty, P.Empty, P.Empty, P.Empty;
      exLeft, exArmed, cacheStall := 0, false, 0;
    }

    method RedirectEmpty(pc: Word, mode: Mode)
      modifies this
      ensures Value() == P.RedirectEmpty(old(Value()), pc, mode)
    {
      DropInFlight();
      fetchPc, retirePc := pc, pc;
      fetchMode, retireMode := mode, mode;
    }

    method DropInFlight()
      modifies this
      ensures Value() == old(Value()).(ifId := P.Empty, idEx := P.Empty, exMem := P.Empty, memWb := P.Empty,
                                       exLeft := 0, exArmed := false)
    {
      ifId, idEx := P.Empty, P.Empty;
      exMem, memWb := P.Empty, P.Empty;
      exLeft, exArmed := 0, false;
    }

    /** The state behind a trap's bank swap and vector read. */
    method TakeOver(newSys: S, newReg: Regs, newMem: M)
      modifies this
      ensures Value() == old(Value()).(sys := newSys, reg := newReg, mem := newMem)
    {
      sys, reg, mem := newSys, newReg, newMem;
    }

    method EnterException(e: Exception, epc: Word, mode: Mode)
      modifies this
      ensures Value() == P.EnterTrap(env, old(Value()), e, epc, mode)
    {
      hide P.RedirectEmpty;
      var t := env.trap(sys, reg, e, epc, mode);
      var v := env.readVector(mem, e);
      TakeOver(t.0, t.1, v.1);
      RedirectEmpty(v.0, Normal);
      running := v.0 != env.vectorAddress(e);
    }

    /** Commits the oldest instruction; true when the pipeline was flushed. */
    method CommitMemWb() returns (flushed: bool)
      modifies this
      ensures var c := P.Commit(env, old(Value()));
              Value() == c.p && flushed == c.flushed
              && c.halted == (!c.flushed && old(memWb).Full? && old(memWb).e.halt)
    {
      hide P.EnterTrap, P.WriteBack, P.RedirectEmpty, Next;
      if memWb.Empty? {
        return false;
      }
      var wb := memWb.e;
      if !(wb.exception.Some? && IsFetchFault(wb.exception.value)) {
        executed := executed + 1;
      }
      if wb.exception.Some? {
        var epc := if wb.exception.value.SyscallTrap? then Next(wb.pc, wb.mode) else wb.pc;
        EnterException(wb.exception.value, epc, wb.mode);
        return true;
      }
      if wb.mtsr.Some? {
        CommitMtsr(wb, wb.mtsr.value.0, wb.mtsr.value.1);
        return true;
      }
      Retire(wb);
      if wb.iret {
        CommitIret();
        return true;
      }
      if wb.halt {
        CommitHalt();
      }
      return false;
    }

    method CommitMtsr(wb: P.MemWb, sr: Half, value: Word)
      modifies this
      ensures var p := old(Value());
              Value() == match env.writeSr(p.sys, p.reg, sr, value)
                         case Some(w) => P.RedirectEmpty(p.(sys := w.0, reg := w.1), Next(wb.pc, wb.mode), wb.mode)
                         case None => P.EnterTrap(env, p, IllegalInstruction, wb.pc, wb.mode)
    {
      hide P.EnterTrap, P.RedirectEmpty, Next;
      match env.writeSr(sys, reg, sr, value) {
        case Some(w) =>
          sys, reg := w.0, w.1;
          RedirectEmpty(Next(wb.pc, wb.mode), wb.mode);
        case None =>
          EnterException(IllegalInstruction, wb.pc, wb.mode);
      }
    }

    method CommitIret()
      modifies this
      ensures var p := old(Value());
              var (sys, reg, pc, mode) := env.iret(p.sys, p.reg);
              Value() == P.RedirectEmpty(p.(sys := sys, reg := reg), pc, mode)
    {
      hide P.RedirectEmpty;
      var r := env.iret(sys, reg);
      sys, reg := r.0, r.1;
      RedirectEmpty(r.2, r.3);
    }

    /** Over-fetched instructions are dropped; the resume address is already in `retirePc`. */
    method CommitHalt()
      modifies this
      ensures Value() == old(Value()).(running := false, ifId := P.Empty, idEx := P.Empty, exMem := P.Empty,
                                       exArmed := false, exLeft := 0)
    {
      running := false;
      ifId, idEx, exMem := P.Empty, P.Empty, P.Empty;
      exArmed, exLeft := false, 0;
    }

    method WriteBack(wb: P.MemWb)
      modifies this`reg
      ensures reg == P.WriteBack(env, old(reg), wb)
    {
      if wb.cpuid {
        reg := reg[REG_CPUID := CPU_ID][REG_FEATURES := env.features][0 := 0];
      }
      if wb.dest.Some? {
        if wb.dest.value != 0 {
          reg := reg[wb.dest.value := wb.value];
        }
        reg := reg[0 := 0];
      }
    }

    /** Architectural effects of an instruction that neither traps nor is MTSR. */
    method Retire(wb: P.MemWb)
      modifies this
      ensures var p := old(Value());
              Value() == p.(
                retirePc := if wb.taken then wb.target else if wb.iret then p.retirePc else Next(wb.pc, wb.mode),
                reg := P.WriteBack(env, p.reg, wb),
                fetchMode := if wb.newMode.Some? then wb.newMode.value else p.fetchMode,
                retireMode := if wb.newMode.Some? then wb.newMode.value else p.retireMode)
    {
      hide Next, P.WriteBack;
      if wb.taken {
        retirePc := wb.target;
      } else if !wb.iret {
        retirePc := Next(wb.pc, wb.mode);
      }
      WriteBack(wb);
      if wb.newMode.Some? {
        fetchMode, retireMode := wb.newMode.value, wb.newMode.value;
      }
    }

    /** EX, ID, prediction, IF and the redirect flush of one clock. */
    method Advance(next: P.Slot<P.MemWb>, halted: bool)
      modifies this
      ensures Value() == P.Advance(env, old(Value()), next, halted)
    {
      hide P.FrontEnd, P.ExecuteEx, P.Forwarded, P.LoadUse, P.RepairedRedirect;
      var loadUse := P.LoadUse(idEx, ifId);
      var nextExMem: P.Slot<P.ExMem> := P.Empty;
      var redirect: P.Redirect := None;
      if idEx.Full? {
        var op := idEx.e.op;
        var em := P.ExecuteEx(env, sys, reg, op, P.Forwarded(env, Value(), op.srcA), P.Forwarded(env, Value(), op.srcB));
        nextExMem := P.Full(em);
        redirect := P.RepairedRedirect(idEx.e, em);
      }
      FrontEnd(loadUse, halted, redirect);
      exMem, memWb := nextExMem, next;
    }

    method FrontEnd(loadUse: bool, halted: bool, redirect: P.Redirect)
      modifies this
      ensures Value() == P.FrontEnd(env, old(Value()), loadUse, halted, redirect)
    {
      hide P.DecodeId, P.FetchEntry, P.BackwardOffset, Next, Plus;
      var nextIdEx: P.Slot<P.IdEx> := P.Empty;
      if ifId.Full? && !loadUse {
        nextIdEx := P.Full(P.IdEx(P.DecodeId(ifId.e), false));
      }
      if redirect.None? && nextIdEx.Full? {
        nextIdEx := Predict(nextIdEx.e.op);
      }
      var nextIfId := ifId;
      if loadUse {
      } else if halted {
        nextIfId := P.Empty;
      } else {
        nextIfId := P.Full(P.FetchEntry(env, sys, fetchPc, fetchMode));
        fetchPc := Next(fetchPc, fetchMode);
      }
      if redirect.Some? {
        fetchPc, fetchMode := redirect.value.0, redirect.value.1;
        nextIfId, nextIdEx := P.Empty, P.Empty;
      }
      ifId, idEx := nextIfId, nextIdEx;
    }

    /** Steers IF along a conditional backward branch that has just been decoded. */
    method Predict(op: P.Op) returns (id: P.Slot<P.IdEx>)
      modifies this
      ensures var p := old(Value());
              match P.BackwardOffset(op)
              case Some(offset) =>
                && id == P.Full(P.IdEx(op, true))
                && Value() == p.(fetchPc := Plus(Next(op.pc, op.mode), offset), fetchMode := op.mode)
              case None => id == P.Full(P.IdEx(op, false)) && Value() == p
    {
      match P.BackwardOffset(op) {
        case Some(offset) =>
          fetchPc, fetchMode := Plus(Next(op.pc, op.mode), offset), op.mode;
          id := P.Full(P.IdEx(op, true));
        case None =>
          id := P.Full(P.IdEx(op, false));
      }
    }

    /** The multiply/divide countdown in front of EX. */
    method Drain(next: P.Slot<P.MemWb>, halted: bool)
      modifies this
      ensures Value() == P.Drain(env, old(Value()), next, halted)
    {
      hide P.Advance, P.LoadUse, P.MulDivLatency;
      var delayDone := false;
      if exArmed {
        if exLeft > 1 {
          exLeft, memWb, exMem := exLeft - 1, next, P.Empty;
          return;
        }
        exLeft, exArmed, delayDone := 0, false, true;
      }
      if !delayDone && idEx.Full? && !P.LoadUse(idEx, ifId) {
        var latency := P.MulDivLatency(idEx.e.op.insn);
        if latency > 0 {
          exLeft, exArmed, memWb, exMem := latency - 1, true, next, P.Empty;
          return;
        }
      }
      Advance(next, halted);
    }

    /** One clock. */
    method Tick(penalty: P.Penalty)
      modifies this
      ensures Value() == P.Tick(env, old(Value()), penalty)
    {
      hide P.Work;
      if ifId.Empty? && idEx.Empty? && exMem.Empty? && memWb.Empty? {
        fetchPc, retireMode := retirePc, fetchMode;
      }
      if cacheStall > 0 {
        cacheStall := cacheStall - 1;
        return;
      }
      if !running {
        return;
      }
      Work();
      cacheStall := cacheStall + penalty.fetch + penalty.load;
    }

    method Work()
      modifies this
      ensures Value() == P.Work(env, old(Value()))
    {
      hide P.Commit, P.Drain, P.EnterTrap, P.MemCheck, P.MemStage;
      var halted := memWb.Full? && memWb.e.halt;
      var flushed := CommitMemWb();
      if flushed {
        return;
      }
      var next: P.Slot<P.MemWb> := P.Empty;
      if exMem.Full? {
        var em := exMem.e;
        match P.MemCheck(env, sys, em) {
          case Some(e) =>
            EnterException(e, em.pc, em.mode);
            return;
          case None =>
        }
        var r := P.MemStage(env, sys, mem, em);
        next, mem := P.Full(r.0), r.1;
      }
      Drain(next, halted);
    }

    /** Clocks the CPU once for each penalty. */
    method RunFor(penalties: seq<P.Penalty>)
      modifies this
      ensures Value() == Run(env, old(Value()), penalties)
    {
      hide P.Tick;
      var i := 0;
      while i < |penalties|
        invariant 0 <= i <= |penalties|
        invariant Run(env, Value(), penalties[i..]) == Run(env, old(Value()), penalties)
      {
        Tick(penalties[i]);
        assert penalties[i..][1..] == penalties[i + 1..];
        i := i + 1;
      }
    }
  }
}
