/**
 The instruction counters. The scalar CPU counts an instruction before it executes; the pipeline
 counts at commit, which a load or store that MEM refuses never reaches.
 */
module PipelineCount {
  import opened Isa
  import opened Wrappers
  import opened Pipeline
  import opened PipelineDatapath
  import opened PipelineProof
  import opened PipelineTheorems

  /** A clock in which MEM refuses an access retires that instruction and does not count it; the
      scalar CPU's step does. */
  lemma RefusedIsUncounted<M(!new), S(!new)>(env: Platform<M, S>, q: Pipe<M, S>, before: Regs, b: State<M, S>)
    requires Mid(env, q, before, b) && q.exMem.Full? && MemCheck(env, q.sys, q.exMem.e).Some?
    ensures Memory(env, q, false).executed == q.executed && Memory(env, q, false).retirePc == Step(env, b).pc
    ensures Step(env, b).executed == b.executed + 1 && Step(env, b).dataFaults == b.dataFaults + 1
  {
    RefusedAccess(env, q, before, b);
    DatapathIsStep(env, b);
  }

  /** The counters agree as long as no access has been refused, and no longer. */
  lemma CountsAgreeIff<M(!new), S(!new)>(env: Platform<M, S>, s: State<M, S>, penalties: seq<Penalty>)
    requires Wired(env) && s.running && s.reg[0] == 0 && s.executed == 0 && s.dataFaults == 0
    ensures var start := Reset(s.reg, s.pc, s.mode, s.sys, s.mem);
            var a := Steps(env, s, RetiredIn(env, start, penalties));
            Run(env, start, penalties).executed == a.executed <==> a.dataFaults == 0
  {
    PipelineRefinesScalar(env, s, penalties);
  }

  // ---- they do differ ----

  const HANDLER: Word := 0x100

  /** A user program that loads from address 16, which nothing grants; the state of the privilege
      unit is its user bit. */
  function RefusedLoad(): Platform<(), bool> {
    Platform(
      (user: bool, pc: Word) => if pc == 0 then Load(1, 0, 16, 4) else Nop,
      (user: bool, pc: Word) => SRet,
      0,
      (op: AluOp, a: Word, b: Word) => 0,
      (m: (), user: bool, addr: Word, width: Width) => (0, m),
      (m: (), user: bool, addr: Word, width: Width, value: Word) => m,
      (e: Exception) => 0,
      (m: (), e: Exception) => (HANDLER, m),
      (user: bool) => user,
      (user: bool, addr: Word, n: nat, access: Access) =>
        if user && access == Read then Some(ProtectionFault(Read)) else None,
      (user: bool, reg: Regs, e: Exception, pc: Word, mode: Mode) => (false, reg),
      (user: bool, reg: Regs) => (user, reg, 0, Normal),
      (user: bool, reg: Regs, n: Half) => None,
      (user: bool, reg: Regs, n: Half, v: Word) => None)
  }

  function LoadOp(): Op {
    Op(0, Normal, N(Load(1, 0, 16, 4)), 0, 0, Some(1), true, false, None)
  }

  predicate Quiet(p: Pipe<(), bool>) {
    p.memWb.Empty? && p.running && !p.exArmed && p.cacheStall == 0 && p.sys && p.executed == 0
  }

  predicate LoadFetched(p: Pipe<(), bool>) {
    && Quiet(p) && p.exMem.Empty? && p.idEx.Empty? && p.fetchPc == 4 && p.fetchMode == Normal
    && p.ifId == Full(IfId(0, Normal, N(Load(1, 0, 16, 4)), None))
  }

  predicate LoadDecoded(p: Pipe<(), bool>) {
    && Quiet(p) && p.exMem.Empty? && p.idEx == Full(IdEx(LoadOp(), false))
    && p.ifId == Full(IfId(4, Normal, N(Nop), None))
  }

  predicate LoadExecuted(p: Pipe<(), bool>) {
    Quiet(p) && p.exMem == Full(Bubble(LoadOp()).(addr := 16, width := 4))
  }

  lemma FirstClock(env: Platform<(), bool>, reg: Regs, x: Penalty)
    requires env == RefusedLoad() && x == Penalty(0, 0)
    ensures LoadFetched(Tick(env, Reset(reg, 0, Normal, true, ()), x))
  {
  }

  lemma SecondClock(env: Platform<(), bool>, p: Pipe<(), bool>, x: Penalty)
    requires env == RefusedLoad() && x == Penalty(0, 0) && LoadFetched(p)
    ensures LoadDecoded(Tick(env, p, x))
  {
  }

  lemma ThirdClock(env: Platform<(), bool>, p: Pipe<(), bool>, x: Penalty)
    requires env == RefusedLoad() && x == Penalty(0, 0) && LoadDecoded(p)
    ensures LoadExecuted(Tick(env, p, x))
  {
  }

  lemma FourthClock(env: Platform<(), bool>, p: Pipe<(), bool>, x: Penalty)
    requires env == RefusedLoad() && x == Penalty(0, 0) && LoadExecuted(p)
    ensures Tick(env, p, x).executed == 0 && Tick(env, p, x).retirePc == HANDLER
  {
  }

  lemma RefusedLoadIsWired(env: Platform<(), bool>)
    requires env == RefusedLoad()
    ensures Wired(env)
  {
  }

  lemma ScalarCounts(env: Platform<(), bool>, reg: Regs)
    requires env == RefusedLoad()
    ensures var a := Step(env, State(reg, 0, Normal, true, true, (), 0, 0));
            a.executed == 1 && a.pc == HANDLER
  {
  }

  lemma FourClocks(env: Platform<(), bool>, reg: Regs, x: Penalty)
    requires env == RefusedLoad() && x == Penalty(0, 0)
    ensures var p := Tick(env, Tick(env, Tick(env, Tick(env, Reset(reg, 0, Normal, true, ()), x), x), x), x);
            p.executed == 0 && p.retirePc == HANDLER
  {
    FirstClock(env, reg, x);
    var p1 := Tick(env, Reset(reg, 0, Normal, true, ()), x);
    SecondClock(env, p1, x);
    var p2 := Tick(env, p1, x);
    ThirdClock(env, p2, x);
    FourthClock(env, Tick(env, p2, x), x);
  }

  /** After four clocks both CPUs stand at the handler of the refused load; the scalar CPU has
      counted it, the pipeline has not. */
  lemma RefusedLoadIsUncounted(reg: Regs)
    ensures var env, x := RefusedLoad(), Penalty(0, 0);
            var p := Tick(env, Tick(env, Tick(env, Tick(env, Reset(reg, 0, Normal, true, ()), x), x), x), x);
            var a := Step(env, State(reg, 0, Normal, true, true, (), 0, 0));
            Wired(env) && p.retirePc == a.pc == HANDLER && p.executed == 0 && a.executed == 1
  {
    hide Tick, Step, Wired;
    RefusedLoadIsWired(RefusedLoad());
    ScalarCounts(RefusedLoad(), reg);
    FourClocks(RefusedLoad(), reg, Penalty(0, 0));
  }
}
