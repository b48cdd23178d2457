/**
 The mode in which a halted CPU resumes. HALT discards the over-fetched instructions but not the
 fetch mode they may already have switched, and the empty pipeline reloads its mode from there.
 */
module PipelineHalt {
  import opened Isa
  import opened Wrappers
  import opened Pipeline
  import opened PipelineDatapath
  import opened PipelineProof
  import opened PipelineTheorems
  import Simulation

  /** The word behind the HALT at `pc` is JMPS, JALS, JRS or JALRS. */
  predicate SwitchFollows<M, S>(env: Platform<M, S>, sys: S, pc: Word) {
    var i := env.normal(sys, Plus(pc, 4));
    (i.Jump? || i.JumpReg?) && i.toShort
  }

  /** Behind a HALT in EX/MEM stands the word after it. */
  ghost predicate BehindHalt<M, S>(env: Platform<M, S>, q: Pipe<M, S>, b: State<M, S>) {
    q.exMem.Full? && q.exMem.e.halt ==> q.idEx.Full? && Front(env, q, b.sys, Next(b.pc, b.mode), b.mode)
  }

  ghost predicate HaltMode<M, S>(env: Platform<M, S>, p: Pipe<M, S>, wb: Slot<MemWb>, a: State<M, S>) {
    wb.Full? && wb.e.halt ==> p.fetchMode == if SwitchFollows(env, a.sys, a.pc) then Short else Normal
  }

  /** What a run keeps about the front end behind a HALT on its way to commit. */
  ghost predicate Shadow<M, S>(env: Platform<M, S>, p: Pipe<M, S>, a: State<M, S>) {
    && HaltMode(env, p, p.memWb, a)
    && (!(p.memWb.Full? && Flushes(env, a)) ==> BehindHalt(env, p, if p.memWb.Full? then Step(env, a) else a))
  }

  /** Only supervisor code in Normal mode halts. */
  lemma HaltIsNormal<M, S>(env: Platform<M, S>, s: State<M, S>)
    requires EmAt(env, s).halt
    ensures s.mode == Normal && !env.user(s.sys)
  {
    hide ReadReg, MergeLow, MergeHigh, Plus;
  }

  /** The word behind HALT, once executed, has switched the mode exactly if it is such a jump. */
  lemma SwitchExecutes<M(!new), S(!new)>(env: Platform<M, S>, sys: S, reg: Regs, pc: Word, a: Word, b: Word)
    requires Wired(env) && !env.user(sys)
    ensures var op := DecodeId(FetchEntry(env, sys, Plus(pc, 4), Normal));
            var em := ExecuteEx(env, sys, reg, op, a, b);
            && em.mode == Normal && (em.newMode.Some? ==> em.taken)
            && (RedirectMode(em) == if SwitchFollows(env, sys, pc) then Short else Normal)
            && (MulDivLatency(op.insn) > 0 ==> !SwitchFollows(env, sys, pc))
  {
    hide Plus, MergeLow, MergeHigh;
    assert FetchEntry(env, sys, Plus(pc, 4), Normal) == IfId(Plus(pc, 4), Normal, N(env.normal(sys, Plus(pc, 4))), None);
  }

  lemma HoldHaltMode<M(!new), S(!new)>(env: Platform<M, S>, q: Pipe<M, S>, next: Slot<MemWb>, before: Regs, b: State<M, S>)
    requires Late(env, q, next, before, b) && BehindHalt(env, q, b)
    requires next.Full? && next.e.halt && q.exMem.e.halt && MulDivLatency(q.idEx.e.op.insn) > 0
    ensures HaltMode(env, q, next, b)
  {
    HaltIsNormal(env, b);
    SwitchExecutes(env, b.sys, b.reg, b.pc, 0, 0);
  }

  lemma AdvanceHaltMode<M(!new), S(!new)>(env: Platform<M, S>, q: Pipe<M, S>, next: Slot<MemWb>, before: Regs, b: State<M, S>)
    requires Late(env, q, next, before, b) && BehindHalt(env, q, b)
    requires next.Full? && next.e.halt && q.exMem.e.halt
    ensures HaltMode(env, Advance(env, q, next, false), next, b)
  {
    HaltIsNormal(env, b);
    var op := q.idEx.e.op;
    var fa, fb := Forwarded(env, q, op.srcA), Forwarded(env, q, op.srcB);
    var em := ExecuteEx(env, q.sys, q.reg, op, fa, fb);
    SwitchExecutes(env, b.sys, q.reg, b.pc, fa, fb);
    PredictionTarget(env, b.sys, q.reg, Plus(b.pc, 4), Normal, fa, fb);
    FrontBusy(env, q, Plus(b.pc, 4), Normal, em);
  }

  lemma AdvanceBehindHalt<M(!new), S(!new)>(env: Platform<M, S>, q: Pipe<M, S>, next: Slot<MemWb>, before: Regs, b: State<M, S>)
    requires Late(env, q, next, before, b) && !(next.Full? && Flushes(env, b))
    ensures BehindHalt(env, Advance(env, q, next, false), if next.Full? then Step(env, b) else b)
  {
    hide FrontEnd, Forwarded, ExecuteEx, Wired, Step;
    if q.idEx.Full? {
      var c := if next.Full? then Step(env, b) else b;
      ExecuteIsCurrent(env, q, next, before, b);
      var em := EmAt(env, c);
      if em.halt {
        HaltIsNormal(env, c);
        DatapathIsStep(env, c);
        var op := q.idEx.e.op;
        PredictionTarget(env, c.sys, c.reg, c.pc, c.mode, ReadReg(c.reg, op.srcA), ReadReg(c.reg, op.srcB));
        if next.Full? {
          DatapathIsStep(env, b);
        }
        HaltHasNoHazard(env, c);
        FrontBusy(env, q, c.pc, c.mode, em);
      }
    }
  }

  lemma HaltHasNoHazard<M, S>(env: Platform<M, S>, s: State<M, S>)
    requires EmAt(env, s).halt
    ensures !OpAt(env, s).isLoad && BackwardOffset(OpAt(env, s)).None?
  {
    hide ReadReg, MergeLow, MergeHigh, Plus;
  }

  lemma DrainShadow<M(!new), S(!new)>(env: Platform<M, S>, q: Pipe<M, S>, next: Slot<MemWb>, before: Regs, b: State<M, S>)
    requires Late(env, q, next, before, b) && BehindHalt(env, q, b)
    requires next.Full? ==> next.e.halt == q.exMem.e.halt
    ensures Shadow(env, Drain(env, q, next, false), b)
  {
    hide Advance, LoadUse, Late;
    LateDisarmed(env, q, next, before, b);
    if q.exArmed && q.exLeft > 1 {
      if next.Full? && next.e.halt {
        HoldHaltMode(env, q, next, before, b);
      }
    } else if q.exArmed {
      AdvanceShadow(env, q.(exLeft := 0, exArmed := false), next, before, b);
    } else if q.idEx.Full? && !LoadUse(q.idEx, q.ifId) && MulDivLatency(q.idEx.e.op.insn) > 0 {
      if next.Full? && next.e.halt {
        HoldHaltMode(env, q, next, before, b);
      }
    } else {
      AdvanceShadow(env, q, next, before, b);
    }
  }

  lemma AdvanceShadow<M(!new), S(!new)>(env: Platform<M, S>, q: Pipe<M, S>, next: Slot<MemWb>, before: Regs, b: State<M, S>)
    requires Late(env, q, next, before, b) && BehindHalt(env, q, b)
    requires next.Full? ==> next.e.halt == q.exMem.e.halt
    ensures Shadow(env, Advance(env, q, next, false), b)
  {
    AdvanceFrame(env, q, next, false);
    if next.Full? && next.e.halt {
      AdvanceHaltMode(env, q, next, before, b);
    }
    if !(next.Full? && Flushes(env, b)) {
      AdvanceBehindHalt(env, q, next, before, b);
    }
  }

  lemma MidShadow<M(!new), S(!new)>(env: Platform<M, S>, q: Pipe<M, S>, before: Regs, b: State<M, S>)
    requires Mid(env, q, before, b) && BehindHalt(env, q, b)
    ensures var refused := q.exMem.Full? && MemCheck(env, q.sys, q.exMem.e).Some?;
            Shadow(env, Memory(env, q, false), if refused then Step(env, b) else b)
  {
    if q.exMem.Empty? {
      DrainShadow(env, q, Empty, before, b);
    } else if MemCheck(env, q.sys, q.exMem.e).None? {
      GrantedAccess(env, q, before, b);
      var (wb, mem) := MemStage(env, q.sys, q.mem, q.exMem.e);
      DrainShadow(env, q.(mem := mem), Full(wb), before, b);
    }
  }

  lemma WorkShadow<M(!new), S(!new)>(env: Platform<M, S>, p: Pipe<M, S>, a: State<M, S>)
    requires Inv(env, p, a) && Shadow(env, p, a) && p.cacheStall == 0
    requires !(p.memWb.Full? && Flushes(env, a))
    ensures Shadow(env, Work(env, p), Steps(env, a, RetiredBy(env, p)))
  {
    FewSteps(env, a);
    var b := if p.memWb.Full? then Step(env, a) else a;
    var c := Commit(env, p);
    if p.memWb.Full? {
      CommitPlain(env, p, a);
      CommitKeepsFront(env, p);
    }
    MidShadow(env, c.p, a.reg, b);
  }

  lemma CommitKeepsFront<M, S>(env: Platform<M, S>, p: Pipe<M, S>)
    requires !Commit(env, p).flushed && !Commit(env, p).halted
    ensures var q := Commit(env, p).p;
            q.ifId == p.ifId && q.idEx == p.idEx && q.exMem == p.exMem && q.fetchPc == p.fetchPc
            && (p.memWb.Empty? || p.memWb.e.newMode.None? ==> q.fetchMode == p.fetchMode)
  {
  }

  ghost predicate RefinesShadowed<M(!new), S(!new)>(env: Platform<M, S>, p: Pipe<M, S>, a: State<M, S>) {
    Refines(env, p, a) && (p.running ==> Shadow(env, p, a))
  }

  lemma TickShadowed<M(!new), S(!new)>(env: Platform<M, S>, p: Pipe<M, S>, a: State<M, S>, penalty: Penalty)
    requires RefinesShadowed(env, p, a)
    ensures RefinesShadowed(env, Tick(env, p, penalty), Steps(env, a, RetiredBy(env, p)))
  {
    hide Memory, Commit, Inv, EmAt, Flushes, Steps, FetchEntry;
    TickRefines(env, p, a, penalty);
    FewSteps(env, a);
    if p.running {
      Synced(env, p, a);
      if p.cacheStall == 0 {
        if !(p.memWb.Full? && Flushes(env, a)) {
          WorkShadow(env, p, a);
        } else if EmAt(env, a).halt {
          CommitHalt(env, p, a);
        } else {
          CommitFlush(env, p, a);
        }
      }
    }
  }

  lemma RunShadowed<M(!new), S(!new)>(env: Platform<M, S>, p: Pipe<M, S>, a: State<M, S>, penalties: seq<Penalty>)
    requires RefinesShadowed(env, p, a)
    ensures RefinesShadowed(env, Run(env, p, penalties), Steps(env, a, RetiredIn(env, p, penalties)))
  {
    var tick := (q: Pipe<M, S>, x: Penalty) => Tick(env, q, x);
    var weight := (q: Pipe<M, S>) => RetiredBy(env, q);
    var steps := (b: State<M, S>, n: nat) => Steps(env, b, n);
    var rel := (q: Pipe<M, S>, b: State<M, S>) => RefinesShadowed(env, q, b);
    forall q, b, x | rel(q, b) ensures rel(tick(q, x), steps(b, weight(q))) {
      TickShadowed(env, q, b, x);
    }
    forall b: State<M, S>, m: nat, n: nat ensures steps(steps(b, m), n) == steps(b, m + n) {
      StepsAdd(env, b, m, n);
    }
    Simulation.Simulates(tick, weight, steps, rel, p, a, penalties);
  }

  /** After any run that has brought a HALT to commit: the next clock stops the CPU where the scalar
      CPU stops, but the clock after that, which reloads the empty pipeline, keeps the scalar CPU's
      instruction mode if and only if the word behind the HALT is not a jump into Short mode. */
  lemma HaltResumesInModeIff<M(!new), S(!new)>(
    env: Platform<M, S>, s: State<M, S>, penalties: seq<Penalty>, x: Penalty, y: Penalty)
    requires Wired(env) && s.running && s.reg[0] == 0 && s.executed == 0 && s.dataFaults == 0
    ensures var start := Reset(s.reg, s.pc, s.mode, s.sys, s.mem);
            var p := Run(env, start, penalties);
            var a := Steps(env, s, RetiredIn(env, start, penalties));
            p.running && p.cacheStall == 0 && p.memWb.Full? && p.memWb.e.halt ==>
              && Stopped(Tick(env, p, x), Step(env, a))
              && (Tick(env, Tick(env, p, x), y).retireMode == Step(env, a).mode <==> !SwitchFollows(env, a.sys, a.pc))
  {
    var start := Reset(s.reg, s.pc, s.mode, s.sys, s.mem);
    RunShadowed(env, start, s, penalties);
    var p := Run(env, start, penalties);
    var a := Steps(env, s, RetiredIn(env, start, penalties));
    if p.running && p.cacheStall == 0 && p.memWb.Full? && p.memWb.e.halt {
      HaltClocks(env, p, a, x, y);
    }
  }

  lemma HaltClocks<M(!new), S(!new)>(env: Platform<M, S>, p: Pipe<M, S>, a: State<M, S>, x: Penalty, y: Penalty)
    requires Inv(env, p, a) && Shadow(env, p, a) && p.cacheStall == 0 && p.memWb.Full? && p.memWb.e.halt
    ensures Stopped(Tick(env, p, x), Step(env, a))
    ensures Tick(env, Tick(env, p, x), y).retireMode == Step(env, a).mode <==> !SwitchFollows(env, a.sys, a.pc)
  {
    HaltIsNormal(env, a);
    DatapathIsStep(env, a);
    CommitHalt(env, p, a);
    StoppedTick(env, Tick(env, p, x), y);
  }

  lemma StoppedTick<M, S>(env: Platform<M, S>, p: Pipe<M, S>, y: Penalty)
    requires !p.running && IsEmpty(p)
    ensures Tick(env, p, y).retireMode == p.fetchMode
  {
  }

  // ---- the failing family is not empty ----

  /** HALT at 0 and JMPS at 4, on a machine without traps. */
  function HaltThenJmps(): Platform<(), ()> {
    Platform(
      (s: (), pc: Word) => if pc == 0 then Isa.Halt else if pc == 4 then Jump(false, true, 0) else Nop,
      (s: (), pc: Word) => SRet,
      0,
      (op: AluOp, a: Word, b: Word) => 0,
      (m: (), s: (), addr: Word, width: Width) => (0, m),
      (m: (), s: (), addr: Word, width: Width, value: Word) => m,
      (e: Exception) => 0,
      (m: (), e: Exception) => (0, m),
      (s: ()) => false,
      (s: (), addr: Word, n: nat, access: Access) => None,
      (s: (), reg: Regs, e: Exception, pc: Word, mode: Mode) => (s, reg),
      (s: (), reg: Regs) => (s, reg, 0, Normal),
      (s: (), reg: Regs, n: Half) => None,
      (s: (), reg: Regs, n: Half, v: Word) => None)
  }

  /** The pipeline after two clocks: HALT decoded, JMPS fetched. */
  predicate HaltIsDecoded(p: Pipe<(), ()>) {
    && p.idEx == Full(IdEx(Op(0, Normal, N(Isa.Halt), 0, 0, None, false, false, None), false))
    && p.ifId == Full(IfId(4, Normal, N(Jump(false, true, 0)), None))
    && p.exMem.Empty? && p.memWb.Empty? && p.running && !p.exArmed && p.cacheStall == 0
    && p.retirePc == 0 && p.retireMode == Normal
  }

  lemma SlipDecodes(env: Platform<(), ()>, p: Pipe<(), ()>, x: Penalty)
    requires env == HaltThenJmps() && x == Penalty(0, 0)
    requires IsEmpty(p) && p.retirePc == 0 && p.fetchMode == Normal && p.running && !p.exArmed && p.cacheStall == 0
    ensures HaltIsDecoded(Run(env, p, [x, x]))
  {
    hide ExecuteEx, Forwarded;
    RunTwo(env, p, x);
    var p1 := Tick(env, p, x);
    assert p1.ifId == Full(IfId(0, Normal, N(Isa.Halt), None)) && p1.fetchPc == 4 && p1.idEx.Empty? && p1.memWb.Empty?;
  }

  predicate HaltAtCommit(p: Pipe<(), ()>) {
    && p.memWb == Full(MemWb(0, Normal, None, 0, false, 0, None, true, false, false, None, None))
    && p.fetchMode == Short && p.retireMode == Normal && p.running && p.cacheStall == 0
  }

  predicate HaltExecuted(p: Pipe<(), ()>) {
    && p.exMem.Full? && p.exMem.e == Bubble(Op(0, Normal, N(Isa.Halt), 0, 0, None, false, false, None)).(halt := true)
    && p.idEx == Full(IdEx(Op(4, Normal, N(Jump(false, true, 0)), 0, 0, None, false, false, None), false))
    && p.memWb.Empty? && p.running && !p.exArmed && p.cacheStall == 0
    && p.retirePc == 0 && p.retireMode == Normal
  }

  lemma HaltExecutes(env: Platform<(), ()>, p: Pipe<(), ()>, x: Penalty)
    requires env == HaltThenJmps() && x == Penalty(0, 0) && HaltIsDecoded(p)
    ensures HaltExecuted(Tick(env, p, x))
  {
    hide Forwarded;
  }

  lemma JumpExecutes(env: Platform<(), ()>, p: Pipe<(), ()>, x: Penalty)
    requires env == HaltThenJmps() && x == Penalty(0, 0) && HaltExecuted(p)
    ensures HaltAtCommit(Tick(env, p, x))
  {
  }

  lemma SlipExecutes(env: Platform<(), ()>, p: Pipe<(), ()>, x: Penalty)
    requires env == HaltThenJmps() && x == Penalty(0, 0) && HaltIsDecoded(p)
    ensures HaltAtCommit(Run(env, p, [x, x]))
  {
    HaltExecutes(env, p, x);
    JumpExecutes(env, Tick(env, p, x), x);
    RunTwo(env, p, x);
  }

  lemma SlipStops(env: Platform<(), ()>, p: Pipe<(), ()>, x: Penalty)
    requires HaltAtCommit(p)
    ensures Tick(env, p, x).retireMode == Normal && Tick(env, p, x).retirePc == 4
    ensures Tick(env, Tick(env, p, x), x).retireMode == Short
  {
    assert IsEmpty(Tick(env, p, x)) && !Tick(env, p, x).running && Tick(env, p, x).fetchMode == Short;
  }

  /** Four clocks bring the HALT to commit; it stops the CPU in Normal mode, and one clock later the
      pipeline has slipped into Short mode, in which the scalar CPU never is. */
  lemma HaltThenJmpsSlips(reg: Regs)
    ensures var env, x := HaltThenJmps(), Penalty(0, 0);
            var p := Run(env, Reset(reg, 0, Normal, (), ()), [x, x, x, x]);
            && Tick(env, p, x).retireMode == Normal && Tick(env, p, x).retirePc == 4
            && Tick(env, Tick(env, p, x), x).retireMode == Short
            && Step(env, State(reg, 0, Normal, true, (), (), 0, 0)).mode == Normal
  {
    var env, x := HaltThenJmps(), Penalty(0, 0);
    var p0 := Reset(reg, 0, Normal, (), ());
    SlipRuns(env, p0, x);
    assert [x, x] + [x, x] == [x, x, x, x];
    SlipStops(env, Run(env, p0, [x, x, x, x]), x);
  }

  lemma SlipRuns(env: Platform<(), ()>, p: Pipe<(), ()>, x: Penalty)
    requires env == HaltThenJmps() && x == Penalty(0, 0)
    requires IsEmpty(p) && p.retirePc == 0 && p.fetchMode == Normal && p.running && !p.exArmed && p.cacheStall == 0
    ensures HaltAtCommit(Run(env, p, [x, x] + [x, x]))
  {
    SlipDecodes(env, p, x);
    SlipExecutes(env, Run(env, p, [x, x]), x);
    Simulation.IterateConcat((q: Pipe<(), ()>, y: Penalty) => Tick(env, q, y), p, [x, x], [x, x]);
  }

  lemma RunTwo<M, S>(env: Platform<M, S>, p: Pipe<M, S>, x: Penalty)
    ensures Run(env, p, [x, x]) == Tick(env, Tick(env, p, x), x)
  {
    RunStep(env, p, x, [x]);
    RunStep(env, Tick(env, p, x), x, []);
  }

  lemma RunStep<M, S>(env: Platform<M, S>, p: Pipe<M, S>, x: Penalty, xs: seq<Penalty>)
    ensures Run(env, p, [x] + xs) == Run(env, Tick(env, p, x), xs)
  {
    assert ([x] + xs)[1..] == xs;
  }
}
