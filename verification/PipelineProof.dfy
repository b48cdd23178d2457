/**
 The pipeline refines the scalar CPU: what every clock keeps, and what it retires.

 `a` is always the scalar state after the instructions the pipeline has retired, `b` the state
 after the one in MEM/WB as well, and `c` the state after the one in EX/MEM as well.
 */
module PipelineProof {
  import opened Isa
  import opened Wrappers
  import opened Pipeline
  import opened PipelineDatapath

  /** Address from which IF continued behind the operation in ID/EX. */
  function PredictedPc(id: IdEx): Word {
    var next := Next(id.op.pc, id.op.mode);
    match BackwardOffset(id.op)
    case Some(offset) => Plus(next, offset)
    case None => next
  }

  /** The oldest instruction not yet executed is the one at `pc`, and IF runs ahead of it along
      the predicted path. */
  ghost predicate Front<M, S>(env: Platform<M, S>, p: Pipe<M, S>, sys: S, pc: Word, mode: Mode) {
    && (p.ifId.Full? ==> p.fetchPc == Next(p.ifId.e.pc, p.ifId.e.mode) && p.fetchMode == p.ifId.e.mode)
    && if p.idEx.Full? then
         && p.idEx.e.op == DecodeId(FetchEntry(env, sys, pc, mode))
         && p.idEx.e.predictedTaken == BackwardOffset(p.idEx.e.op).Some?
         && p.ifId == Full(FetchEntry(env, sys, PredictedPc(p.idEx.e), mode))
       else if p.ifId.Full? then p.ifId.e == FetchEntry(env, sys, pc, mode)
       else p.fetchPc == pc && p.fetchMode == mode
  }

  /** With nothing in ID/EX, the front end moves one stage and stays in front of `pc`. */
  lemma FrontIdle<M, S>(env: Platform<M, S>, p: Pipe<M, S>, pc: Word, mode: Mode)
    requires Front(env, p, p.sys, pc, mode) && p.idEx.Empty?
    ensures Front(env, FrontEnd(env, p, false, false, None), p.sys, pc, mode)
  {
    hide Code, DecodeId, BackwardOffset, Next, Plus;
  }

  /** A redirect empties the front end and restarts it at the target. */
  lemma FrontRedirected<M, S>(env: Platform<M, S>, p: Pipe<M, S>, loadUse: bool, pc: Word, mode: Mode)
    ensures var p' := FrontEnd(env, p, loadUse, false, Some((pc, mode)));
            Front(env, p', p.sys, pc, mode) && p'.idEx.Empty? && p'.ifId.Empty?
  {
  }

  /** Without a redirect, the instruction in IF/ID enters ID/EX, or waits there for a load. */
  lemma FrontFollows<M, S>(env: Platform<M, S>, p: Pipe<M, S>, loadUse: bool, pc: Word, mode: Mode)
    requires p.ifId == Full(FetchEntry(env, p.sys, pc, mode))
    requires p.fetchPc == Next(pc, mode) && p.fetchMode == mode
    ensures var p' := FrontEnd(env, p, loadUse, false, None);
            && Front(env, p', p.sys, pc, mode)
            && (if loadUse then p'.idEx.Empty? && p'.ifId == p.ifId
                else p'.ifId.Full? && p'.idEx.Full? && p'.idEx.e.op == DecodeId(p.ifId.e))
  {
    hide Code, DecodeId, BackwardOffset, Next, Plus;
  }

  /** With an operation executing, the front end ends up in front of that operation's real
      successor, whatever had been predicted. */
  lemma FrontBusy<M, S>(env: Platform<M, S>, p: Pipe<M, S>, pc: Word, mode: Mode, em: ExMem)
    requires Front(env, p, p.sys, pc, mode) && p.idEx.Full?
    requires em.mode == mode && (em.newMode.Some? ==> em.taken)
    requires var o := BackwardOffset(p.idEx.e.op);
             o.Some? && em.taken ==> em.newMode.None? && em.target == Plus(Next(pc, mode), o.value)
    ensures var loadUse := LoadUse(p.idEx, p.ifId);
            var p' := FrontEnd(env, p, loadUse, false, RepairedRedirect(p.idEx.e, em));
            && Front(env, p', p.sys, if em.taken then em.target else Next(pc, mode), RedirectMode(em))
            && (p'.idEx.Full? ==> !loadUse && p'.ifId.Full? && p'.idEx.e.op == DecodeId(p.ifId.e))
            && (!em.taken && BackwardOffset(p.idEx.e.op).None? && !loadUse ==> p'.idEx.Full?)
  {
    hide FrontEnd, Code, Next, Plus, LoadUse;
    var loadUse := LoadUse(p.idEx, p.ifId);
    match RepairedRedirect(p.idEx.e, em) {
      case Some(r) => FrontRedirected(env, p, loadUse, r.0, r.1);
      case None => FrontFollows(env, p, loadUse, PredictedPc(p.idEx.e), mode);
    }
  }

  // ---- forwarding ----

  /** The MEM/WB entry has been committed into the register file of this same clock. */
  ghost predicate CommittedInto<M, S>(env: Platform<M, S>, p: Pipe<M, S>, before: Regs) {
    before[0] == 0 && p.memWb.Full? && (p.memWb.e.cpuid ==> p.memWb.e.dest.None?)
      && p.reg == WriteBack(env, before, p.memWb.e)
  }

  /** Forwarding delivers the register value the scalar CPU would read, unless the producer is a
      load that is still in EX/MEM. */
  lemma ForwardingIsCurrent<M, S>(env: Platform<M, S>, p: Pipe<M, S>, before: Regs, mem: M, r: Reg)
    requires p.reg[0] == 0
    requires p.memWb.Full? ==> CommittedInto(env, p, before)
    requires p.exMem.Full? ==> (p.exMem.e.cpuid ==> p.exMem.e.dest.None?)
    requires p.exMem.Full? ==> !p.exMem.e.isStore || p.exMem.e.dest.None?
    requires p.exMem.Full? && p.exMem.e.isLoad ==> p.exMem.e.dest != Some(r) || r == 0
    ensures var reg := if p.exMem.Full? then WriteBack(env, p.reg, MemStage(env, p.sys, mem, p.exMem.e).0) else p.reg;
            Forwarded(env, p, r) == ReadReg(reg, r)
  {
  }

  /** EX may look at the register file of an older state: MFSR runs in supervisor mode only. */
  lemma ExecuteIgnoresRegs<M(!new), S(!new)>(env: Platform<M, S>, sys: S, q: Regs, r: Regs, op: Op, a: Word, b: Word)
    requires Wired(env)
    ensures ExecuteEx(env, sys, q, op, a, b) == ExecuteEx(env, sys, r, op, a, b)
  {
  }

  /** A predicted branch that is taken goes where the predictor said. */
  lemma PredictionTarget<M, S>(env: Platform<M, S>, sys: S, reg: Regs, pc: Word, mode: Mode, a: Word, b: Word)
    ensures var op := DecodeId(FetchEntry(env, sys, pc, mode));
            var em := ExecuteEx(env, sys, reg, op, a, b);
            var o := BackwardOffset(op);
            && (o.Some? && em.taken ==> em.newMode.None? && em.target == Plus(Next(pc, mode), o.value))
            && (op.isLoad ==> !em.taken)
            && (em.isStore ==> em.dest.None?)
            && (em.isLoad ==> op.isLoad && em.dest == op.dest)
  {
    hide DecodeId, ExecuteEx, BackwardOffset, Plus;
    var f := FetchEntry(env, sys, pc, mode);
    if f.insn.N? {
      PredictionNormal(env, sys, reg, f, a, b);
    } else {
      PredictionShort(env, sys, reg, f, a, b);
    }
  }

  lemma PredictionNormal<M, S>(env: Platform<M, S>, sys: S, reg: Regs, f: IfId, a: Word, b: Word)
    requires f.insn.N? && (f.mode == Normal || f.insn == N(Nop))
    ensures var op := DecodeId(f);
            var em := ExecuteEx(env, sys, reg, op, a, b);
            var o := BackwardOffset(op);
            && (o.Some? && em.taken ==> em.newMode.None? && em.target == Plus(Next(f.pc, f.mode), o.value))
            && (op.isLoad ==> !em.taken) && (em.isStore ==> em.dest.None?)
            && (em.isLoad ==> op.isLoad && em.dest == op.dest)
  {
    hide Plus, MergeLow, MergeHigh;
  }

  lemma PredictionShort<M, S>(env: Platform<M, S>, sys: S, reg: Regs, f: IfId, a: Word, b: Word)
    requires f.insn.Sh? && f.mode == Short
    ensures var op := DecodeId(f);
            var em := ExecuteEx(env, sys, reg, op, a, b);
            var o := BackwardOffset(op);
            && (o.Some? && em.taken ==> em.newMode.None? && em.target == Plus(Next(f.pc, f.mode), o.value))
            && (op.isLoad ==> !em.taken) && (em.isStore ==> em.dest.None?)
            && (em.isLoad ==> op.isLoad && em.dest == op.dest)
  {
    hide Plus, Gpr;
  }

  // ---- the invariant ----

  /** Registers, PC, mode, privilege state and instruction count are those of `a`. The pipeline
      does not count a load or store that the privilege unit refuses; the scalar CPU does. */
  ghost predicate Arch<M, S>(p: Pipe<M, S>, a: State<M, S>) {
    && p.reg == a.reg && p.retirePc == a.pc && p.retireMode == a.mode && p.sys == a.sys
    && p.executed + a.dataFaults == a.executed
  }

  /** Facts that hold even for entries a flush is about to drop. */
  predicate Structure<M, S>(p: Pipe<M, S>) {
    && (p.idEx.Full? ==> p.ifId.Full?)
    && (p.exMem.Full? && p.exMem.e.newMode.Some? ==> p.idEx.Empty? && p.ifId.Empty?)
    && (p.memWb.Full? && p.memWb.e.newMode.Some? ==> p.exMem.Empty? && p.idEx.Empty?)
    && (p.idEx.Full? && p.idEx.e.predictedTaken ==> BackwardOffset(p.idEx.e.op).Some?)
    && (p.exArmed ==> p.idEx.Full? && MulDivLatency(p.idEx.e.op.insn) > 0 && 1 <= p.exLeft < 16)
  }

  /** EX/MEM holds the instruction at `b`, and the front end is in front of its successor. */
  ghost predicate Behind<M, S>(env: Platform<M, S>, p: Pipe<M, S>, b: State<M, S>) {
    && (p.exMem.Full? ==> p.exMem.e == EmAt(env, b))
    && (!(p.exMem.Full? && Flushes(env, b)) ==>
          var c := if p.exMem.Full? then Step(env, b) else b;
          && Front(env, p, c.sys, c.pc, c.mode)
          && (p.exMem.Full? && p.exMem.e.isLoad && p.idEx.Full? ==> !ReadsDest(p.idEx.e.op, p.exMem.e)))
  }

  predicate ReadsDest(op: Op, em: ExMem) {
    em.dest.Some? && em.dest.value != 0 && (op.srcA == em.dest.value || op.srcB == em.dest.value)
  }

  ghost predicate Inv<M(!new), S(!new)>(env: Platform<M, S>, p: Pipe<M, S>, a: State<M, S>) {
    && Wired(env) && Ready(a) && p.running && Arch(p, a) && Structure(p)
    && (p.memWb.Full? ==> p.memWb.e == WbAt(env, a) && MemCheck(env, a.sys, EmAt(env, a)).None?)
    && if p.memWb.Full? && Flushes(env, a) then p.mem == a.mem
       else var b := if p.memWb.Full? then Step(env, a) else a;
            p.mem == b.mem && Behind(env, p, b)
  }

  /** The CPU has stopped, at HALT or at an unprogrammed vector. */
  ghost predicate Stopped<M, S>(p: Pipe<M, S>, a: State<M, S>) {
    && !a.running && !p.running && IsEmpty(p)
    && p.reg == a.reg && p.retirePc == a.pc && p.sys == a.sys && p.mem == a.mem
    && p.executed + a.dataFaults == a.executed
  }

  ghost predicate Refines<M(!new), S(!new)>(env: Platform<M, S>, p: Pipe<M, S>, a: State<M, S>) {
    Inv(env, p, a) || Stopped(p, a)
  }

  /** An empty pipeline at `a`, running or stopped. */
  ghost predicate Restarted<M, S>(p: Pipe<M, S>, a: State<M, S>) {
    && Arch(p, a) && p.mem == a.mem && p.running == a.running && IsEmpty(p)
    && p.fetchPc == a.pc && p.fetchMode == a.mode && !p.exArmed && a.reg[0] == 0
  }

  lemma RestartedRefines<M(!new), S(!new)>(env: Platform<M, S>, p: Pipe<M, S>, a: State<M, S>)
    requires Wired(env) && Restarted(p, a)
    ensures Refines(env, p, a)
  {
    hide Wired, EmAt, Flushes, Step, FetchEntry, MemCheck;
  }

  /** A running pipeline has nothing to reload from the register block. */
  lemma Synced<M(!new), S(!new)>(env: Platform<M, S>, p: Pipe<M, S>, a: State<M, S>)
    requires Inv(env, p, a)
    ensures SyncFromBlock(p) == p
  {
    hide Wired, Step, FetchEntry, Structure, WbAt;
  }

  // ---- WB ----

  /** The state between WB and MEM of one clock. */
  ghost predicate Mid<M(!new), S(!new)>(env: Platform<M, S>, q: Pipe<M, S>, before: Regs, b: State<M, S>) {
    && Wired(env) && Ready(b) && q.running && Arch(q, b) && Structure(q) && q.mem == b.mem
    && (q.memWb.Full? ==> CommittedInto(env, q, before))
    && Behind(env, q, b)
  }

  /** An instruction that does not flush is retired by its MEM/WB entry. */
  lemma PlainStep<M(!new), S(!new)>(env: Platform<M, S>, a: State<M, S>)
    requires Wired(env) && Ready(a) && !Flushes(env, a)
    ensures var wb, t := WbAt(env, a), Step(env, a);
            && wb.exception.None? && wb.mtsr.None? && !wb.iret && !wb.halt
            && wb.pc == a.pc && wb.mode == a.mode && (wb.cpuid ==> wb.dest.None?) && (wb.newMode.Some? ==> wb.taken)
            && t == Retired(env, a, wb, t.mem) && Ready(t)
  {
    hide Wired, EmAt, Step, MemCheck;
    DatapathIsStep(env, a);
  }

  lemma CommitPlain<M(!new), S(!new)>(env: Platform<M, S>, p: Pipe<M, S>, a: State<M, S>)
    requires Inv(env, p, a) && p.memWb.Full? && !Flushes(env, a)
    ensures var c := Commit(env, p);
            !c.flushed && !c.halted && Mid(env, c.p, a.reg, Step(env, a))
  {
    hide Wired, EmAt, WbAt, Flushes, Step, FetchEntry, DecodeId, EnterTrap, MemCheck, BackwardOffset, MulDivLatency;
    PlainStep(env, a);
  }

  lemma CommitFlush<M(!new), S(!new)>(env: Platform<M, S>, p: Pipe<M, S>, a: State<M, S>)
    requires Inv(env, p, a) && p.memWb.Full? && Flushes(env, a)
    requires !EmAt(env, a).halt
    ensures var c := Commit(env, p);
            c.flushed && Restarted(c.p, Step(env, a))
  {
    hide EmAt, Step, FetchEntry, DecodeId, Behind, Structure, EnterTrap, EnterException, WriteBack;
    DatapathIsStep(env, a);
    var wb := p.memWb.e;
    if wb.exception.Some? {
      TrapRestarts(env, p, a, wb);
    } else if wb.mtsr.Some? {
      TrapRestarts(env, p, a, wb.(exception := Some(IllegalInstruction)));
    } else {
      NoWriteBack(env, p.reg, wb);
    }
  }

  lemma NoWriteBack<M, S>(env: Platform<M, S>, reg: Regs, wb: MemWb)
    requires !wb.cpuid && wb.dest.None?
    ensures WriteBack(env, reg, wb) == reg
  {
  }

  /** A trap leaves both CPUs in the same place. */
  lemma TrapRestarts<M(!new), S(!new)>(env: Platform<M, S>, p: Pipe<M, S>, a: State<M, S>, wb: MemWb)
    requires Wired(env) && Ready(a) && p.running && Arch(p, a) && p.mem == a.mem && wb.exception.Some?
    requires wb.pc == a.pc && wb.mode == a.mode
    ensures var e := wb.exception.value;
            var epc := if e.SyscallTrap? then Next(a.pc, a.mode) else a.pc;
            var counted := if IsFetchFault(e) then 0 else 1;
            Restarted(EnterTrap(env, p.(executed := p.executed + counted), e, epc, a.mode),
                      EnterException(env, a.(executed := a.executed + counted), e, epc))
  {
  }

  // ---- MEM, EX and the front end ----

  lemma RefusedAccess<M(!new), S(!new)>(env: Platform<M, S>, q: Pipe<M, S>, before: Regs, b: State<M, S>)
    requires Mid(env, q, before, b) && q.exMem.Full? && MemCheck(env, q.sys, q.exMem.e).Some?
    ensures Restarted(Memory(env, q, false), Step(env, b))
  {
    hide EmAt, Step, FetchEntry, DecodeId, Front, Structure, WriteBack;
    DatapathIsStep(env, b);
  }

  /** The state between MEM and EX: the EX/MEM instruction has done its access. */
  ghost predicate Late<M(!new), S(!new)>(env: Platform<M, S>, q: Pipe<M, S>, next: Slot<MemWb>, before: Regs, b: State<M, S>) {
    && Wired(env) && Ready(b) && q.running && Arch(q, b) && Structure(q)
    && (q.memWb.Full? ==> CommittedInto(env, q, before))
    && Behind(env, q, b)
    && (next.Full? <==> q.exMem.Full?)
    && (next.Full? ==> next.e == WbAt(env, b) && MemCheck(env, b.sys, EmAt(env, b)).None?
                       && next.e.newMode == q.exMem.e.newMode)
    && q.mem == (if next.Full? && !Flushes(env, b) then Step(env, b) else b).mem
  }

  lemma GrantedAccess<M(!new), S(!new)>(env: Platform<M, S>, q: Pipe<M, S>, before: Regs, b: State<M, S>)
    requires Mid(env, q, before, b) && q.exMem.Full? && MemCheck(env, q.sys, q.exMem.e).None?
    ensures var (wb, mem) := MemStage(env, q.sys, q.mem, q.exMem.e);
            Late(env, q.(mem := mem), Full(wb), before, b)
  {
    hide Wired, EmAt, Step, FetchEntry, DecodeId, WriteBack, EnterException;
    DatapathIsStep(env, b);
  }

  /** A clock in which EX holds its operation: only MEM/WB drains. */
  lemma HoldKeeps<M(!new), S(!new)>(env: Platform<M, S>, q: Pipe<M, S>, next: Slot<MemWb>, before: Regs, b: State<M, S>,
                                    left: nat)
    requires Late(env, q, next, before, b)
    requires q.idEx.Full? && MulDivLatency(q.idEx.e.op.insn) > 0 && 1 <= left < 16
    ensures Inv(env, q.(exLeft := left, exArmed := true, memWb := next, exMem := Empty), b)
  {
    hide Wired, EmAt, Step, FetchEntry, DecodeId, WriteBack, Flushes, WbAt, MulDivLatency, BackwardOffset;
  }

  /** Any EX result: a mode switch is a taken jump, and no predicted branch switches modes. */
  lemma ExStructure<M, S>(env: Platform<M, S>, sys: S, reg: Regs, op: Op, a: Word, b: Word)
    ensures var em := ExecuteEx(env, sys, reg, op, a, b);
            && (em.newMode.Some? ==> em.taken)
            && (BackwardOffset(op).Some? ==> em.newMode.None?)
  {
    hide Plus, MergeLow, MergeHigh, Next;
  }

  lemma FrontStructure<M, S>(env: Platform<M, S>, q: Pipe<M, S>, loadUse: bool, redirect: Redirect)
    ensures var r := FrontEnd(env, q, loadUse, false, redirect);
            && (r.idEx.Full? ==> r.ifId.Full?) && (q.ifId.Empty? ==> r.idEx.Empty?)
            && (r.idEx.Full? && r.idEx.e.predictedTaken ==> BackwardOffset(r.idEx.e.op).Some?)
            && (redirect.Some? ==> r.idEx.Empty? && r.ifId.Empty?)
            && r.exArmed == q.exArmed
  {
    hide BackwardOffset, DecodeId, FetchEntry, Next, Plus;
  }

  lemma AdvanceStructure<M(!new), S(!new)>(env: Platform<M, S>, q: Pipe<M, S>, next: Slot<MemWb>)
    requires Structure(q) && (next.Full? <==> q.exMem.Full?) && (next.Full? ==> next.e.newMode == q.exMem.e.newMode)
    requires !q.exArmed
    ensures Structure(Advance(env, q, next, false))
  {
    hide ExecuteEx, Forwarded, LoadUse, DecodeId, FetchEntry, MulDivLatency, Next, FrontEnd, BackwardOffset;
    if q.idEx.Empty? {
      FrontStructure(env, q, LoadUse(q.idEx, q.ifId), None);
    } else {
      var op := q.idEx.e.op;
      var a, b := Forwarded(env, q, op.srcA), Forwarded(env, q, op.srcB);
      ExStructure(env, q.sys, q.reg, op, a, b);
      FrontStructure(env, q, LoadUse(q.idEx, q.ifId), RepairedRedirect(q.idEx.e, ExecuteEx(env, q.sys, q.reg, op, a, b)));
    }
  }

  /** Through forwarding, EX computes exactly what the scalar CPU would for the next instruction. */
  lemma ExecuteIsCurrent<M(!new), S(!new)>(env: Platform<M, S>, q: Pipe<M, S>, next: Slot<MemWb>, before: Regs, b: State<M, S>)
    requires Late(env, q, next, before, b) && q.idEx.Full? && !(next.Full? && Flushes(env, b))
    ensures var c := if next.Full? then Step(env, b) else b;
            var op := q.idEx.e.op;
            && Ready(c) && c.sys == q.sys
            && ExecuteEx(env, q.sys, q.reg, op, Forwarded(env, q, op.srcA), Forwarded(env, q, op.srcB)) == EmAt(env, c)
  {
    hide ExecuteEx, DecodeId, FetchEntry, Forwarded, Wired, Step;
    var c := if next.Full? then Step(env, b) else b;
    var op := q.idEx.e.op;
    if next.Full? {
      DatapathIsStep(env, b);
      PredictionTarget(env, b.sys, b.reg, b.pc, b.mode, ReadReg(b.reg, OpAt(env, b).srcA), ReadReg(b.reg, OpAt(env, b).srcB));
      assert c == Retired(env, b, WbAt(env, b), c.mem);
    }
    ForwardingIsCurrent(env, q, before, b.mem, op.srcA);
    ForwardingIsCurrent(env, q, before, b.mem, op.srcB);
    ExecuteIgnoresRegs(env, q.sys, q.reg, c.reg, op, ReadReg(c.reg, op.srcA), ReadReg(c.reg, op.srcB));
  }

  /** Behind the executed instruction the front end stands in front of the scalar CPU's next PC, and
      no reader of a pending load has slipped into ID/EX. */
  lemma AdvanceBusy<M(!new), S(!new)>(env: Platform<M, S>, q: Pipe<M, S>, next: Slot<MemWb>, c: State<M, S>, em: ExMem)
    requires Wired(env) && Ready(c) && c.sys == q.sys && q.idEx.Full? && Front(env, q, c.sys, c.pc, c.mode)
    requires em == EmAt(env, c) && !Flushes(env, c)
    ensures var p := FrontEnd(env, q, LoadUse(q.idEx, q.ifId), false, RepairedRedirect(q.idEx.e, em));
            var d := Step(env, c);
            && Front(env, p, d.sys, d.pc, d.mode)
            && (em.isLoad && p.idEx.Full? ==> !ReadsDest(p.idEx.e.op, em))
  {
    hide ExecuteEx, DecodeId, FetchEntry, Wired, Step, FrontEnd, EnterException;
    var op := q.idEx.e.op;
    DatapathIsStep(env, c);
    PredictionTarget(env, c.sys, c.reg, c.pc, c.mode, ReadReg(c.reg, op.srcA), ReadReg(c.reg, op.srcB));
    FrontBusy(env, q, c.pc, c.mode, em);
    if em.dest.Some? && em.dest.value != 0 {
      HazardSourcesMatchDecode(q.ifId.e, em.dest.value);
    }
  }

  /** What `Advance` leaves, given where the front end ended up. */
  lemma Assemble<M(!new), S(!new)>(env: Platform<M, S>, q: Pipe<M, S>, next: Slot<MemWb>, before: Regs, b: State<M, S>,
                                   r: Pipe<M, S>)
    requires Late(env, q, next, before, b) && Structure(r) && r.memWb == next
    requires r.running == q.running && r.reg == q.reg && r.retirePc == q.retirePc && r.retireMode == q.retireMode
    requires r.sys == q.sys && r.executed == q.executed && r.mem == q.mem
    requires !(next.Full? && Flushes(env, b)) ==> Behind(env, r, if next.Full? then Step(env, b) else b)
    ensures Inv(env, r, b)
  {
    hide Wired, EmAt, Step, FetchEntry, DecodeId, WriteBack, Flushes, WbAt, Behind, Structure;
  }

  lemma FrontFrame<M, S>(env: Platform<M, S>, q: Pipe<M, S>, loadUse: bool, halted: bool, redirect: Redirect)
    ensures var r := FrontEnd(env, q, loadUse, halted, redirect);
            && r.running == q.running && r.reg == q.reg && r.retirePc == q.retirePc && r.retireMode == q.retireMode
            && r.sys == q.sys && r.executed == q.executed && r.mem == q.mem && r.exArmed == q.exArmed
            && r.cacheStall == q.cacheStall
  {
    hide DecodeId, FetchEntry, BackwardOffset, Next, Plus;
  }

  lemma AdvanceFrame<M, S>(env: Platform<M, S>, q: Pipe<M, S>, next: Slot<MemWb>, halted: bool)
    ensures var r := Advance(env, q, next, halted);
            && r.memWb == next && r.running == q.running && r.reg == q.reg && r.retirePc == q.retirePc
            && r.retireMode == q.retireMode && r.sys == q.sys && r.executed == q.executed && r.mem == q.mem
            && r.exArmed == q.exArmed && r.cacheStall == q.cacheStall && (r.exMem.Full? <==> q.idEx.Full?)
  {
    hide ExecuteEx, Forwarded, FrontEnd, RepairedRedirect;
    if q.idEx.Empty? {
      FrontFrame(env, q, false, halted, None);
    } else {
      var op := q.idEx.e.op;
      var em := ExecuteEx(env, q.sys, q.reg, op, Forwarded(env, q, op.srcA), Forwarded(env, q, op.srcB));
      FrontFrame(env, q, LoadUse(q.idEx, q.ifId), halted, RepairedRedirect(q.idEx.e, em));
    }
  }

  lemma AdvanceBehind<M(!new), S(!new)>(env: Platform<M, S>, q: Pipe<M, S>, next: Slot<MemWb>, before: Regs, b: State<M, S>)
    requires Late(env, q, next, before, b) && !(next.Full? && Flushes(env, b))
    ensures Behind(env, Advance(env, q, next, false), if next.Full? then Step(env, b) else b)
  {
    hide Wired, EmAt, Step, FetchEntry, DecodeId, WriteBack, FrontEnd, ExecuteEx, Forwarded;
    var c := if next.Full? then Step(env, b) else b;
    if next.Full? {
      DatapathIsStep(env, b);
    }
    if q.idEx.Empty? {
      FrontIdle(env, q, c.pc, c.mode);
    } else {
      ExecuteIsCurrent(env, q, next, before, b);
      if !Flushes(env, c) {
        AdvanceBusy(env, q, next, c, EmAt(env, c));
      }
    }
  }

  lemma AdvanceKeeps<M(!new), S(!new)>(env: Platform<M, S>, q: Pipe<M, S>, next: Slot<MemWb>, before: Regs, b: State<M, S>)
    requires Late(env, q, next, before, b) && !q.exArmed
    ensures Inv(env, Advance(env, q, next, false), b)
  {
    hide Wired, Flushes, Step, Advance, Inv, Behind, WriteBack, FetchEntry;
    AdvanceStructure(env, q, next);
    AdvanceFrame(env, q, next, false);
    if !(next.Full? && Flushes(env, b)) {
      AdvanceBehind(env, q, next, before, b);
    }
    Assemble(env, q, next, before, b, Advance(env, q, next, false));
  }

  /** An armed countdown is for the multiply or divide in ID/EX; without it nothing else changes. */
  lemma LateDisarmed<M(!new), S(!new)>(env: Platform<M, S>, q: Pipe<M, S>, next: Slot<MemWb>, before: Regs, b: State<M, S>)
    requires Late(env, q, next, before, b)
    ensures Late(env, q.(exLeft := 0, exArmed := false), next, before, b)
    ensures q.exArmed ==> q.idEx.Full? && MulDivLatency(q.idEx.e.op.insn) > 0 && 1 <= q.exLeft < 16
  {
  }

  lemma LatencyRange(d: Decoded)
    ensures MulDivLatency(d) == 0 || 3 <= MulDivLatency(d) <= 16
  {
  }

  lemma DrainKeeps<M(!new), S(!new)>(env: Platform<M, S>, q: Pipe<M, S>, next: Slot<MemWb>, before: Regs, b: State<M, S>)
    requires Late(env, q, next, before, b)
    ensures Inv(env, Drain(env, q, next, false), b)
  {
    hide Late, Inv, Advance, LoadUse, MulDivLatency;
    LateDisarmed(env, q, next, before, b);
    if q.exArmed && q.exLeft > 1 {
      HoldKeeps(env, q, next, before, b, q.exLeft - 1);
    } else if q.exArmed {
      AdvanceKeeps(env, q.(exLeft := 0, exArmed := false), next, before, b);
    } else if q.idEx.Full? && !LoadUse(q.idEx, q.ifId) && MulDivLatency(q.idEx.e.op.insn) > 0 {
      LatencyRange(q.idEx.e.op.insn);
      HoldKeeps(env, q, next, before, b, MulDivLatency(q.idEx.e.op.insn) - 1);
    } else {
      AdvanceKeeps(env, q, next, before, b);
    }
  }
}
