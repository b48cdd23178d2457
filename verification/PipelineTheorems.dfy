/**
 Whole runs of the pipelined CPU against the scalar CPU: refinement, order of bus traffic,
 progress, and the mode in which a stopped CPU resumes.
 */
module PipelineTheorems {
  import opened Isa
  import opened Pipeline
  import opened PipelineDatapath
  import opened PipelineProof
  import Simulation

  /** Instructions one clock retires: the one in MEM/WB, and a load or store that MEM refuses. */
  function RetiredBy<M, S>(env: Platform<M, S>, p: Pipe<M, S>): nat {
    if p.cacheStall > 0 || !p.running then 0
    else
      var c := Commit(env, p);
      (if p.memWb.Full? then 1 else 0) +
      (if !c.flushed && c.p.exMem.Full? && MemCheck(env, c.p.sys, c.p.exMem.e).Some? then 1 else 0)
  }

  /** `p` after one clock for each entry of `penalties`. */
  function Run<M, S>(env: Platform<M, S>, p: Pipe<M, S>, penalties: seq<Penalty>): Pipe<M, S> {
    Simulation.Iterate((q: Pipe<M, S>, x: Penalty) => Tick(env, q, x), p, penalties)
  }

  /** Instructions such a run retires. */
  function RetiredIn<M, S>(env: Platform<M, S>, p: Pipe<M, S>, penalties: seq<Penalty>): nat {
    Simulation.Total((q: Pipe<M, S>, x: Penalty) => Tick(env, q, x), (q: Pipe<M, S>) => RetiredBy(env, q), p, penalties)
  }

  /** HALT at commit: over-fetched instructions are gone and the CPU stands behind HALT. */
  lemma CommitHalt<M(!new), S(!new)>(env: Platform<M, S>, p: Pipe<M, S>, a: State<M, S>)
    requires Inv(env, p, a) && p.memWb.Full? && EmAt(env, a).halt
    ensures var c := Commit(env, p);
            && !c.flushed && c.halted && c.p.exMem.Empty?
            && Stopped(Work(env, p), Step(env, a))
            && Work(env, p).retireMode == a.mode && Work(env, p).fetchMode == p.fetchMode
  {
    hide Wired, EmAt, Step, FetchEntry, DecodeId, Front, Behind, Structure, EnterException, EnterTrap;
    DatapathIsStep(env, a);
  }

  lemma MidRefines<M(!new), S(!new)>(env: Platform<M, S>, q: Pipe<M, S>, before: Regs, b: State<M, S>)
    requires Mid(env, q, before, b)
    ensures var refused := q.exMem.Full? && MemCheck(env, q.sys, q.exMem.e).Some?;
            Refines(env, Memory(env, q, false), if refused then Step(env, b) else b)
  {
    if q.exMem.Empty? {
      DrainKeeps(env, q, Empty, before, b);
    } else if MemCheck(env, q.sys, q.exMem.e).Some? {
      RefusedAccess(env, q, before, b);
      RestartedRefines(env, Memory(env, q, false), Step(env, b));
    } else {
      GrantedAccess(env, q, before, b);
      var (wb, mem) := MemStage(env, q.sys, q.mem, q.exMem.e);
      DrainKeeps(env, q.(mem := mem), Full(wb), before, b);
    }
  }

  lemma WorkFromMid<M(!new), S(!new)>(env: Platform<M, S>, p: Pipe<M, S>, c: Committed<M, S>, before: Regs, a: State<M, S>,
                                     b: State<M, S>)
    requires p.cacheStall == 0 && p.running
    requires c == Commit(env, p) && !c.flushed && !c.halted && Mid(env, c.p, before, b)
    requires b == if p.memWb.Full? then Step(env, a) else a
    ensures Refines(env, Work(env, p), Steps(env, a, RetiredBy(env, p)))
  {
    MidRefines(env, c.p, before, b);
    FewSteps(env, a);
  }

  lemma WorkRefines<M(!new), S(!new)>(env: Platform<M, S>, p: Pipe<M, S>, a: State<M, S>)
    requires Inv(env, p, a) && p.cacheStall == 0
    ensures Refines(env, Work(env, p), Steps(env, a, RetiredBy(env, p)))
  {
    var c := Commit(env, p);
    if p.memWb.Empty? {
      WorkFromMid(env, p, c, a.reg, a, a);
    } else if !Flushes(env, a) {
      CommitPlain(env, p, a);
      WorkFromMid(env, p, c, a.reg, a, Step(env, a));
    } else if EmAt(env, a).halt {
      CommitHalt(env, p, a);
      FewSteps(env, a);
    } else {
      CommitFlush(env, p, a);
      RestartedRefines(env, c.p, Step(env, a));
      FewSteps(env, a);
    }
  }

  // ---- runs ----

  lemma TickRefines<M(!new), S(!new)>(env: Platform<M, S>, p: Pipe<M, S>, a: State<M, S>, penalty: Penalty)
    requires Refines(env, p, a)
    ensures Refines(env, Tick(env, p, penalty), Steps(env, a, RetiredBy(env, p)))
  {
    hide Work, Commit, Inv;
    FewSteps(env, a);
    if Inv(env, p, a) {
      Synced(env, p, a);
      if p.cacheStall == 0 {
        WorkRefines(env, p, a);
        StallIsIrrelevant(env, Work(env, p), Steps(env, a, RetiredBy(env, p)), ChargePenalty(Work(env, p), penalty).cacheStall);
      } else {
        StallIsIrrelevant(env, p, a, p.cacheStall - 1);
      }
    }
  }

  lemma StallIsIrrelevant<M(!new), S(!new)>(env: Platform<M, S>, p: Pipe<M, S>, a: State<M, S>, stall: nat)
    requires Refines(env, p, a)
    ensures Refines(env, p.(cacheStall := stall), a)
  {
    hide Wired, EmAt, WbAt, Flushes, Step, FetchEntry, DecodeId, MemCheck, BackwardOffset, MulDivLatency;
  }

  lemma RunRefines<M(!new), S(!new)>(env: Platform<M, S>, p: Pipe<M, S>, a: State<M, S>, penalties: seq<Penalty>)
    requires Refines(env, p, a)
    ensures Refines(env, Run(env, p, penalties), Steps(env, a, RetiredIn(env, p, penalties)))
  {
    var tick := (q: Pipe<M, S>, x: Penalty) => Tick(env, q, x);
    var weight := (q: Pipe<M, S>) => RetiredBy(env, q);
    var steps := (b: State<M, S>, n: nat) => Steps(env, b, n);
    var rel := (q: Pipe<M, S>, b: State<M, S>) => Refines(env, q, b);
    forall q, b, x | rel(q, b) ensures rel(tick(q, x), steps(b, weight(q))) {
      TickRefines(env, q, b, x);
    }
    forall b: State<M, S>, m: nat, n: nat ensures steps(steps(b, m), n) == steps(b, m + n) {
      StepsAdd(env, b, m, n);
    }
    Simulation.Simulates(tick, weight, steps, rel, p, a, penalties);
  }

  /** How many instructions memory is ahead of the registers: MEM/WB has done its access, unless it
      carries a trap or MTSR, which act at commit. */
  function MemoryAhead<M, S>(p: Pipe<M, S>): nat {
    if p.memWb.Full? && p.memWb.e.exception.None? && p.memWb.e.mtsr.None? then 1 else 0
  }

  /** The refinement theorem. For every program, bus and privilege unit, and after any number of
      clocks with any cache penalties, the pipeline's registers, PC, mode, privilege state and
      instruction count are those of the scalar CPU after exactly the retired instructions, and
      memory is that of the scalar CPU after those plus the one in MEM/WB. */
  lemma PipelineRefinesScalar<M(!new), S(!new)>(env: Platform<M, S>, s: State<M, S>, penalties: seq<Penalty>)
    requires Wired(env) && s.running && s.reg[0] == 0 && s.executed == 0 && s.dataFaults == 0
    ensures var start := Reset(s.reg, s.pc, s.mode, s.sys, s.mem);
            var p := Run(env, start, penalties);
            var n := RetiredIn(env, start, penalties);
            var a := Steps(env, s, n);
            && p.reg == a.reg && p.retirePc == a.pc && p.sys == a.sys && p.running == a.running
            && (p.running ==> p.retireMode == a.mode)
            && p.executed == a.executed - a.dataFaults
            && p.mem == Steps(env, s, n + MemoryAhead(p)).mem
  {
    hide Run, RetiredIn, Wired, Step;
    var start := Reset(s.reg, s.pc, s.mode, s.sys, s.mem);
    RunFromReset(env, start, s, penalties);
    StepsSucc(env, s, RetiredIn(env, start, penalties));
  }

  lemma RunFromReset<M(!new), S(!new)>(env: Platform<M, S>, start: Pipe<M, S>, s: State<M, S>, penalties: seq<Penalty>)
    requires Wired(env) && Restarted(start, s)
    ensures var p := Run(env, start, penalties);
            var a := Steps(env, s, RetiredIn(env, start, penalties));
            && p.reg == a.reg && p.retirePc == a.pc && p.sys == a.sys && p.running == a.running
            && (p.running ==> p.retireMode == a.mode)
            && p.executed == a.executed - a.dataFaults
            && p.mem == (if MemoryAhead(p) == 1 then Step(env, a) else a).mem
  {
    hide Wired, Run, RetiredIn, Step, Refines;
    RestartedRefines(env, start, s);
    RunRefines(env, start, s, penalties);
    RefinedState(env, Run(env, start, penalties), Steps(env, s, RetiredIn(env, start, penalties)));
  }

  lemma RefinedState<M(!new), S(!new)>(env: Platform<M, S>, p: Pipe<M, S>, a: State<M, S>)
    requires Refines(env, p, a)
    ensures p.reg == a.reg && p.retirePc == a.pc && p.sys == a.sys && p.running == a.running
    ensures p.running ==> p.retireMode == a.mode
    ensures p.executed == a.executed - a.dataFaults
    ensures p.mem == (if MemoryAhead(p) == 1 then Step(env, a) else a).mem
  {
    if Inv(env, p, a) {
      DatapathIsStep(env, a);
    }
  }

  // ---- order of bus traffic ----

  datatype BusOp = ReadOp(addr: Word, width: Width) | WriteOp(addr: Word, width: Width, value: Word) | VectorOp(e: Exception)

  /** The same surroundings with a bus that also records every data access, in order. */
  function Recording<M, S>(env: Platform<M, S>): Platform<(M, seq<BusOp>), S> {
    Platform(env.normal, env.short, env.features, env.alu,
      (m: (M, seq<BusOp>), sys: S, addr: Word, width: Width) =>
        var r := env.load(m.0, sys, addr, width); (r.0, (r.1, m.1 + [ReadOp(addr, width)])),
      (m: (M, seq<BusOp>), sys: S, addr: Word, width: Width, value: Word) =>
        (env.store(m.0, sys, addr, width, value), m.1 + [WriteOp(addr, width, value)]),
      env.vectorAddress,
      (m: (M, seq<BusOp>), e: Exception) =>
        var r := env.readVector(m.0, e); (r.0, (r.1, m.1 + [VectorOp(e)])),
      env.user, env.check, env.trap, env.iret, env.readSr, env.writeSr)
  }

  /** No wrong-path instruction, and none behind an uncommitted trap, MTSR or IRET, ever reaches the
      bus: the recorded data accesses are the scalar CPU's, each once and in program order. */
  lemma BusTrafficIsProgramOrder<M(!new), S(!new)>(env: Platform<M, S>, s: State<(M, seq<BusOp>), S>, penalties: seq<Penalty>)
    requires Wired(env) && s.running && s.reg[0] == 0 && s.executed == 0 && s.dataFaults == 0
    ensures var start := Reset(s.reg, s.pc, s.mode, s.sys, s.mem);
            var rec := Recording(env);
            var p := Run(rec, start, penalties);
            p.mem.1 == Steps(rec, s, RetiredIn(rec, start, penalties) + MemoryAhead(p)).mem.1
  {
    PipelineRefinesScalar(Recording(env), s, penalties);
  }
}
