/**
 When the pipeline retires what. The clock in which an instruction retires is given by the instructions
 alone: what each of them costs, and what it costs the one behind it.
 */
module PipelineTiming {
  import opened Isa
  import opened Wrappers
  import opened Pipeline
  import opened PipelineDatapath
  import opened PipelineProof
  import opened PipelineTheorems
  import Simulation

  // ---- costs, in terms of the instruction set ----

  /** The instruction at `s`, if it may be fetched. */
  function InsnAt<M, S>(env: Platform<M, S>, s: State<M, S>): Option<Decoded> {
    if env.check(s.sys, s.pc, if s.mode == Normal then 4 else 2, Fetch).Some? then None
    else Some(if s.mode == Normal then N(env.normal(s.sys, s.pc)) else Sh(env.short(s.sys, s.pc)))
  }

  /** Clocks in EX. */
  function Occupancy(d: Option<Decoded>): nat {
    match d
    case Some(N(Alu(op, _, _, _))) =>
      if op == Mul || op == Mulh then 3 else if op == Div || op == Mod || op == Divu then 16 else 1
    case _ => 1
  }

  /** The privilege unit refuses the load or store at `s`. */
  predicate Refused<M, S>(env: Platform<M, S>, s: State<M, S>) {
    Step(env, s).dataFaults > s.dataFaults
  }

  /** Nothing behind the instruction at `s` stays in the pipeline: it traps, or is MTSR, IRET or HALT. */
  predicate Drains<M, S>(env: Platform<M, S>, s: State<M, S>) {
    match InsnAt(env, s)
    case None => true
    case Some(N(i)) =>
      i.Halt? || i.Iret? || i.Mtsr? || i.Syscall? || i.Unknown? || Refused(env, s)
      || (i.Mfsr? && (env.user(s.sys) || env.readSr(s.sys, s.reg, i.sr).None?))
    case Some(Sh(i)) => i.SUnknown? || Refused(env, s)
  }

  /** EX steers the front end elsewhere: every jump, and a conditional branch that goes forward when taken or
      backward when not. */
  predicate Steers<M, S>(env: Platform<M, S>, s: State<M, S>) {
    match InsnAt(env, s)
    case Some(N(Jump(_, _, _))) => true
    case Some(N(JumpReg(_, _, _))) => true
    case Some(N(Branch(onEqual, rs1, rs2, offset))) =>
      var taken := (ReadReg(s.reg, rs1) == ReadReg(s.reg, rs2)) == onEqual; taken != (offset < 0)
    case Some(Sh(SJumpReg(_))) => true
    case Some(Sh(SJal(_))) => true
    case Some(Sh(SRet)) => true
    case Some(Sh(SBranch(onZero, rd, offset))) =>
      var taken := (ReadReg(s.reg, Gpr(rd)) == 0) == onZero; taken != (offset < 0)
    case _ => false
  }

  /** The register a load fetches. */
  function Loads(d: Option<Decoded>): Reg {
    match d
    case Some(N(Load(rd, _, _, _))) => rd
    case Some(Sh(SLoad(rd, _))) => Gpr(rd)
    case _ => 0
  }

  /** The instruction needs register `r` in EX. */
  predicate Needs(d: Option<Decoded>, r: Reg) {
    match d
    case None => false
    case Some(N(i)) =>
      (match i
       case Alu(_, _, rs1, rs2) => r == rs1 || r == rs2
       case Addi(_, rs1, _) => r == rs1
       case Ldil(rd, _) => r == rd
       case Ldih(rd, _) => r == rd
       case Load(_, base, _, _) => r == base
       case Store(rd, base, _, _) => r == rd || r == base
       case Branch(_, rs1, rs2, _) => r == rs1 || r == rs2
       case JumpReg(_, _, rd) => r == rd
       case Mtsr(rs, _) => r == rs
       case _ => false)
    case Some(Sh(i)) =>
      match i
      case SMov(_, rs1) => r == Gpr(rs1)
      case SAdd(_, rs1, rs2) => r == Gpr(rs1) || r == Gpr(rs2)
      case SAddi(rd, _) => r == Gpr(rd)
      case SLoad(_, rs1) => r == Gpr(rs1)
      case SStore(rd, rs1) => r == Gpr(rd) || r == Gpr(rs1)
      case SBranch(_, rd, _) => r == Gpr(rd)
      case SJumpReg(rd) => r == Gpr(rd)
      case _ => false
  }

  /** Clocks of the instruction at `s` until it is out of EX and MEM: a refused access leaves a clock early. */
  function Cost<M, S>(env: Platform<M, S>, s: State<M, S>): nat {
    Occupancy(InsnAt(env, s)) - (if Refused(env, s) && Occupancy(InsnAt(env, s)) > 0 then 1 else 0)
  }

  /** Clocks lost between the instruction at `s` and the next one. */
  function Lost<M, S>(env: Platform<M, S>, s: State<M, S>): nat {
    if Drains(env, s) then 4
    else if Steers(env, s) then 2
    else if Loads(InsnAt(env, s)) != 0 && Needs(InsnAt(env, Step(env, s)), Loads(InsnAt(env, s))) then 1
    else 0
  }

  /** Clocks between the retirement of the instruction at `s` and that of the `k`-th one behind it. */
  function Later<M, S>(env: Platform<M, S>, s: State<M, S>, k: nat): nat
    decreases k
  {
    if k == 0 then 0 else Lost(env, s) + Cost(env, Step(env, s)) + Later(env, Step(env, s), k - 1)
  }

  // ---- the same in terms of the datapath ----

  lemma InsnIs<M, S>(env: Platform<M, S>, s: State<M, S>)
    ensures OpAt(env, s).insn == (match InsnAt(env, s) case None => N(Nop) case Some(d) => d)
    ensures FetchEntry(env, s.sys, s.pc, s.mode).insn == OpAt(env, s).insn
    ensures OpAt(env, s).exception.Some? <==> InsnAt(env, s).None?
  {
  }

  lemma OccupancyIs(d: Option<Decoded>)
    ensures Occupancy(d) == var l := MulDivLatency(match d case None => N(Nop) case Some(x) => x); if l == 0 then 1 else l
  {
  }

  lemma RefusedIs<M(!new), S(!new)>(env: Platform<M, S>, s: State<M, S>)
    requires Wired(env) && Ready(s)
    ensures var em := EmAt(env, s); Refused(env, s) <==> MemCheck(env, s.sys, em).Some?
  {
    hide Wired, EmAt, Step, FetchEntry;
    DatapathIsStep(env, s);
  }

  /** The redirect of EX. */
  predicate Redirects<M, S>(env: Platform<M, S>, s: State<M, S>) {
    RepairedRedirect(IdEx(OpAt(env, s), BackwardOffset(OpAt(env, s)).Some?), EmAt(env, s)).Some?
  }

  lemma DrainsIs<M(!new), S(!new)>(env: Platform<M, S>, s: State<M, S>)
    requires Wired(env) && Ready(s)
    ensures Drains(env, s) <==> Flushes(env, s)
  {
    hide Wired, Step, Refused, ReadReg, Plus, MergeLow, MergeHigh, Gpr;
    RefusedIs(env, s);
  }

  lemma SteersIs<M(!new), S(!new)>(env: Platform<M, S>, s: State<M, S>)
    requires Wired(env) && Ready(s) && !Flushes(env, s)
    ensures Steers(env, s) <==> Redirects(env, s)
  {
    hide Wired, Step, Steers, Redirects;
    InsnIs(env, s);
    if InsnAt(env, s).Some? {
      match InsnAt(env, s).value {
        case N(i) => SteersNormal(env, s, i);
        case Sh(i) => SteersShort(env, s, i);
      }
    } else {
      NotFetched(env, s);
    }
  }

  lemma NotFetched<M, S>(env: Platform<M, S>, s: State<M, S>)
    requires InsnAt(env, s).None?
    ensures Flushes(env, s)
  {
    hide ReadReg;
  }

  lemma SteersNormal<M, S>(env: Platform<M, S>, s: State<M, S>, i: Instr)
    requires !Flushes(env, s) && InsnAt(env, s) == Some(N(i))
    ensures Steers(env, s) <==> Redirects(env, s)
  {
    hide ReadReg, Plus, MergeLow, MergeHigh, Next, Narrow, Gpr;
  }

  lemma SteersShort<M, S>(env: Platform<M, S>, s: State<M, S>, i: ShortInstr)
    requires !Flushes(env, s) && InsnAt(env, s) == Some(Sh(i))
    ensures Steers(env, s) <==> Redirects(env, s)
  {
    hide ReadReg, Plus, MergeLow, MergeHigh, Next, Narrow, Gpr;
  }

  /** The instruction at `t` waits for the load at `s`. */
  predicate Waits<M, S>(env: Platform<M, S>, s: State<M, S>, t: State<M, S>) {
    LoadUse(Full(IdEx(OpAt(env, s), false)), Full(FetchEntry(env, t.sys, t.pc, t.mode)))
  }

  lemma WaitsIs<M, S>(env: Platform<M, S>, s: State<M, S>, t: State<M, S>)
    ensures Waits(env, s, t) <==> Loads(InsnAt(env, s)) != 0 && Needs(InsnAt(env, t), Loads(InsnAt(env, s)))
  {
  }

  // ---- how the pipeline is filled ----

  /** Behind the instruction at `b` in EX/MEM: nothing after a redirect, only IF/ID full if the next instruction
      waits for the load at `b`, and otherwise the next one in ID/EX. */
  ghost predicate SpacedEx<M, S>(env: Platform<M, S>, p: Pipe<M, S>, b: State<M, S>) {
    if Redirects(env, b) then p.idEx.Empty? && p.ifId.Empty?
    else if Waits(env, b, Step(env, b)) then p.idEx.Empty? && p.ifId.Full?
    else p.idEx.Full?
  }

  /** Behind the instruction at `a` in MEM/WB, a clock later. */
  ghost predicate SpacedWb<M, S>(env: Platform<M, S>, p: Pipe<M, S>, a: State<M, S>) {
    var latency := MulDivLatency(OpAt(env, Step(env, a)).insn);
    if Redirects(env, a) then p.exMem.Empty? && p.idEx.Empty? && p.ifId.Full?
    else if Waits(env, a, Step(env, a)) then p.exMem.Empty? && p.idEx.Full? && !p.exArmed
    else if latency == 0 then p.exMem.Full?
    else p.exMem.Empty? && p.idEx.Full? && p.exArmed && p.exLeft == latency - 1
  }

  ghost predicate Spaced<M, S>(env: Platform<M, S>, p: Pipe<M, S>, a: State<M, S>) {
    && (p.exMem.Full? ==> !p.exArmed)
    && (p.memWb.Full? && !Flushes(env, a) ==> SpacedWb(env, p, a))
    && (p.exMem.Full? && !(p.memWb.Full? && Flushes(env, a)) ==>
          var b := if p.memWb.Full? then Step(env, a) else a;
          Flushes(env, b) || SpacedEx(env, p, b))
  }

  /** Without a redirect IF/ID holds the scalar CPU's next instruction. */
  lemma NextFetched<M(!new), S(!new)>(env: Platform<M, S>, q: Pipe<M, S>, c: State<M, S>)
    requires Wired(env) && Ready(c) && c.sys == q.sys && q.idEx.Full? && Front(env, q, c.sys, c.pc, c.mode)
    requires !Flushes(env, c) && !Redirects(env, c)
    ensures var d := Step(env, c);
            q.ifId == Full(FetchEntry(env, d.sys, d.pc, d.mode))
  {
    hide ExecuteEx, DecodeId, FetchEntry, Wired, Step, EnterException;
    var op := q.idEx.e.op;
    DatapathIsStep(env, c);
    PredictionTarget(env, c.sys, c.reg, c.pc, c.mode, ReadReg(c.reg, op.srcA), ReadReg(c.reg, op.srcB));
  }

  /** EX of the instruction at `c` leaves the front end spaced behind it. */
  lemma FrontSpaced<M(!new), S(!new)>(env: Platform<M, S>, q: Pipe<M, S>, c: State<M, S>)
    requires Wired(env) && Ready(c) && c.sys == q.sys && q.idEx.Full? && Front(env, q, c.sys, c.pc, c.mode)
    requires !Flushes(env, c)
    ensures SpacedEx(env, FrontEnd(env, q, LoadUse(q.idEx, q.ifId), false, RepairedRedirect(q.idEx.e, EmAt(env, c))), c)
  {
    hide ExecuteEx, DecodeId, FetchEntry, Wired, Step, EnterException, EmAt;
    if !Redirects(env, c) {
      NextFetched(env, q, c);
    }
  }

  // ---- one clock ----

  /** Clocks, cache stalls aside, before the one in which the instruction at `b` retires, if it is the oldest
      one behind MEM/WB. */
  function Ahead<M, S>(env: Platform<M, S>, q: Pipe<M, S>, b: State<M, S>): nat {
    if q.exMem.Full? then (if Refused(env, b) then 0 else 1)
    else if q.idEx.Full? then (if q.exArmed then q.exLeft + 1 else Cost(env, b) + 1)
    else if q.ifId.Full? then Cost(env, b) + 2
    else Cost(env, b) + 3
  }

  /** A multiply or divide is not refused, and a load does not stay in EX. */
  lemma LongIsAlu<M(!new), S(!new)>(env: Platform<M, S>, b: State<M, S>)
    requires Wired(env) && Ready(b) && MulDivLatency(OpAt(env, b).insn) > 0
    ensures !Refused(env, b) && !OpAt(env, b).isLoad && Cost(env, b) == MulDivLatency(OpAt(env, b).insn)
  {
    hide Wired, Step, Refused;
    RefusedIs(env, b);
    InsnIs(env, b);
    OccupancyIs(InsnAt(env, b));
  }

  lemma ShortCost<M(!new), S(!new)>(env: Platform<M, S>, b: State<M, S>)
    requires Wired(env) && Ready(b) && MulDivLatency(OpAt(env, b).insn) == 0
    ensures Cost(env, b) == if Refused(env, b) then 0 else 1
  {
    hide Wired, Step, Refused, MulDivLatency;
    InsnIs(env, b);
    OccupancyIs(InsnAt(env, b));
  }

  /** What `Advance` does to an empty ID/EX. */
  lemma IdleShape<M, S>(env: Platform<M, S>, q: Pipe<M, S>, next: Slot<MemWb>)
    requires q.idEx.Empty?
    ensures var r := Advance(env, q, next, false);
            && r.exMem.Empty? && r.memWb == next && r.ifId.Full? && (r.idEx.Full? <==> q.ifId.Full?) && r.exArmed == q.exArmed
  {
    hide DecodeId, FetchEntry, BackwardOffset, Next, Plus;
  }

  /** The oldest instruction comes a clock nearer. */
  lemma DrainAhead<M(!new), S(!new)>(env: Platform<M, S>, q: Pipe<M, S>, before: Regs, b: State<M, S>)
    requires Late(env, q, Empty, before, b)
    ensures Ahead(env, Drain(env, q, Empty, false), b) + 1 == Ahead(env, q, b)
  {
    hide Wired, Step, Refused, Cost, MulDivLatency, Advance, DecodeId, FetchEntry, WbAt, EmAt, Arch;
    AdvanceFrame(env, q, Empty, false);
    AdvanceFrame(env, q.(exLeft := 0, exArmed := false), Empty, false);
    if q.idEx.Empty? {
      IdleShape(env, q, Empty);
    } else if MulDivLatency(q.idEx.e.op.insn) > 0 {
      LongIsAlu(env, b);
    } else {
      ShortCost(env, b);
    }
  }

  ghost predicate SpacedMid<M, S>(env: Platform<M, S>, q: Pipe<M, S>, b: State<M, S>) {
    q.exMem.Full? ==> !q.exArmed && (Flushes(env, b) || SpacedEx(env, q, b))
  }

  lemma AdvanceSpaced<M(!new), S(!new)>(env: Platform<M, S>, q: Pipe<M, S>, next: Slot<MemWb>, before: Regs, b: State<M, S>)
    requires Late(env, q, next, before, b) && !q.exArmed && !(next.Full? && Flushes(env, b)) && q.idEx.Full?
    ensures var c := if next.Full? then Step(env, b) else b;
            Flushes(env, c) || SpacedEx(env, Advance(env, q, next, false), c)
  {
    hide Wired, EmAt, Step, FetchEntry, DecodeId, WriteBack, FrontEnd, ExecuteEx, Forwarded, Redirects, Waits;
    var c := if next.Full? then Step(env, b) else b;
    ExecuteIsCurrent(env, q, next, before, b);
    if !Flushes(env, c) {
      FrontSpaced(env, q, c);
    }
  }

  /** The instruction in ID/EX is the scalar CPU's next one; if it is a multiply or divide nothing waits for it. */
  lemma NextReady<M(!new), S(!new)>(env: Platform<M, S>, q: Pipe<M, S>, next: Slot<MemWb>, before: Regs, b: State<M, S>)
    requires Late(env, q, next, before, b) && q.idEx.Full? && !(next.Full? && Flushes(env, b))
    ensures var c := if next.Full? then Step(env, b) else b;
            q.idEx.e.op == OpAt(env, c) && (MulDivLatency(q.idEx.e.op.insn) > 0 ==> !LoadUse(q.idEx, q.ifId))
  {
    hide Wired, EmAt, Step, FetchEntry, DecodeId, WriteBack, ExecuteEx, Forwarded, MulDivLatency, Arch, WbAt, Flushes;
    ExecuteIsCurrent(env, q, next, before, b);
    if MulDivLatency(q.idEx.e.op.insn) > 0 {
      LongIsAlu(env, if next.Full? then Step(env, b) else b);
    }
  }

  lemma DrainSpaced<M(!new), S(!new)>(env: Platform<M, S>, q: Pipe<M, S>, next: Slot<MemWb>, before: Regs, b: State<M, S>)
    requires Late(env, q, next, before, b) && SpacedMid(env, q, b)
    ensures Spaced(env, Drain(env, q, next, false), b)
  {
    hide Wired, EmAt, Step, FetchEntry, DecodeId, WriteBack, Advance, Redirects, Waits, MulDivLatency, Arch, WbAt;
    AdvanceFrame(env, q, next, false);
    AdvanceFrame(env, q.(exLeft := 0, exArmed := false), next, false);
    LateDisarmed(env, q, next, before, b);
    if q.idEx.Empty? {
      IdleShape(env, q, next);
    } else if !(next.Full? && Flushes(env, b)) {
      NextReady(env, q, next, before, b);
      if q.exArmed {
        AdvanceSpaced(env, q.(exLeft := 0, exArmed := false), next, before, b);
      } else {
        AdvanceSpaced(env, q, next, before, b);
      }
    }
  }

  function Wait<M, S>(env: Platform<M, S>, p: Pipe<M, S>, a: State<M, S>): nat {
    if p.memWb.Full? then 0 else Ahead(env, p, a)
  }

  lemma MidTimes<M(!new), S(!new)>(env: Platform<M, S>, q: Pipe<M, S>, before: Regs, b: State<M, S>)
    requires Mid(env, q, before, b) && SpacedMid(env, q, b)
    ensures var r := Memory(env, q, false);
            if q.exMem.Full? && MemCheck(env, q.sys, q.exMem.e).Some? then Ahead(env, q, b) == 0 && Flushes(env, b) && Restarted(r, Step(env, b))
            else Spaced(env, r, b) && Wait(env, r, b) + 1 == Ahead(env, q, b)
  {
    hide Wired, EmAt, Step, FetchEntry, DecodeId, WriteBack, Drain, Redirects, Waits, Refused, Cost, Front, Spaced;
    if q.exMem.Empty? {
      DrainAhead(env, q, before, b);
      DrainSpaced(env, q, Empty, before, b);
      DrainsToNext(env, q, Empty);
    } else {
      RefusedIs(env, b);
      if MemCheck(env, q.sys, q.exMem.e).Some? {
        RefusedAccess(env, q, before, b);
      } else {
        GrantedAccess(env, q, before, b);
        var (wb, mem) := MemStage(env, q.sys, q.mem, q.exMem.e);
        DrainSpaced(env, q.(mem := mem), Full(wb), before, b);
        DrainsToNext(env, q.(mem := mem), Full(wb));
      }
    }
  }

  lemma DrainsToNext<M, S>(env: Platform<M, S>, q: Pipe<M, S>, next: Slot<MemWb>)
    ensures Drain(env, q, next, false).memWb == next
  {
    hide Advance, LoadUse, MulDivLatency;
    AdvanceFrame(env, q, next, false);
    AdvanceFrame(env, q.(exLeft := 0, exArmed := false), next, false);
  }

  /** What is lost behind an instruction, by the datapath. */
  lemma LostIs<M(!new), S(!new)>(env: Platform<M, S>, a: State<M, S>)
    requires Wired(env) && Ready(a)
    ensures Lost(env, a) == if Flushes(env, a) then 4 else if Redirects(env, a) then 2
                            else if Waits(env, a, Step(env, a)) then 1 else 0
  {
    hide Wired, Step, Flushes, Redirects, Waits, Drains, Steers, InsnAt;
    DrainsIs(env, a);
    WaitsIs(env, a, Step(env, a));
    if !Flushes(env, a) {
      SteersIs(env, a);
    }
  }

  /** The spacing behind MEM/WB is what the instructions say. */
  lemma GapIs<M(!new), S(!new)>(env: Platform<M, S>, p: Pipe<M, S>, a: State<M, S>)
    requires Wired(env) && Ready(a) && Ready(Step(env, a)) && !Flushes(env, a) && SpacedWb(env, p, a)
    ensures Ahead(env, p, Step(env, a)) == Lost(env, a) + Cost(env, Step(env, a))
  {
    hide Wired, Step, Flushes, Redirects, Waits, Drains, Steers, MulDivLatency, Refused, Cost, Lost, OpAt;
    LostIs(env, a);
    var b := Step(env, a);
    if MulDivLatency(OpAt(env, b).insn) > 0 {
      LongIsAlu(env, b);
    } else {
      ShortCost(env, b);
    }
  }

  /** A clock of work, against the costs: `n` instructions retire in it. */
  ghost predicate OnTime<M, S>(env: Platform<M, S>, p: Pipe<M, S>, a: State<M, S>, r: Pipe<M, S>, n: nat) {
    var d := Steps(env, a, n);
    && n <= 2 && (r.running ==> Spaced(env, r, d))
    && (n == 0 ==> Wait(env, p, a) == Wait(env, r, a) + 1)
    && (n >= 1 ==> Wait(env, p, a) == 0)
    && (n == 2 ==> Lost(env, a) + Cost(env, Step(env, a)) == 0)
    && (n >= 1 && r.running ==> var c := Steps(env, a, n - 1); Wait(env, r, d) + 1 == Lost(env, c) + Cost(env, d))
  }

  lemma WorkOnTime<M(!new), S(!new)>(env: Platform<M, S>, p: Pipe<M, S>, a: State<M, S>)
    requires Inv(env, p, a) && Spaced(env, p, a) && p.cacheStall == 0
    ensures OnTime(env, p, a, Work(env, p), RetiredBy(env, p))
  {
    hide Wired, EmAt, WbAt, Step, FetchEntry, DecodeId, WriteBack, Drain, Redirects, Waits, SpacedWb, Refused, Cost, Lost, Arch, Front, Structure,
      MemCheck, Memory, Flushes;
    FewSteps(env, a);
    var c := Commit(env, p);
    if p.memWb.Empty? {
      MidTimes(env, p, a.reg, a);
      LostIs(env, a);
    } else if !Flushes(env, a) {
      CommitPlain(env, p, a);
      GapIs(env, p, a);
      MidTimes(env, c.p, a.reg, Step(env, a));
      LostIs(env, Step(env, a));
    } else if EmAt(env, a).halt {
      CommitHalt(env, p, a);
    } else {
      CommitFlush(env, p, a);
      LostIs(env, a);
    }
  }

  // ---- runs ----

  /** Clocks of work in a run: the others wait for the cache or find the CPU stopped. */
  function WorkedIn<M, S>(env: Platform<M, S>, p: Pipe<M, S>, penalties: seq<Penalty>): nat {
    Simulation.Total((q: Pipe<M, S>, x: Penalty) => Tick(env, q, x), (q: Pipe<M, S>) => WorkedBy(q), p, penalties)
  }

  function WorkedBy<M, S>(p: Pipe<M, S>): nat {
    if p.cacheStall == 0 && p.running then 1 else 0
  }

  lemma RunFirst<M, S>(env: Platform<M, S>, p: Pipe<M, S>, x: Penalty, xs: seq<Penalty>)
    ensures RetiredIn(env, p, [x] + xs) == RetiredBy(env, p) + RetiredIn(env, Tick(env, p, x), xs)
    ensures WorkedIn(env, p, [x] + xs) == WorkedBy(p) + WorkedIn(env, Tick(env, p, x), xs)
  {
    assert ([x] + xs)[1..] == xs;
  }

  lemma StallIsSpaced<M(!new), S(!new)>(env: Platform<M, S>, p: Pipe<M, S>, a: State<M, S>, stall: nat)
    ensures Spaced(env, p.(cacheStall := stall), a) <==> Spaced(env, p, a)
    ensures Wait(env, p.(cacheStall := stall), a) == Wait(env, p, a)
  {
    hide Flushes, Redirects, Waits, Refused, Cost, Step, OpAt, MulDivLatency;
  }

  lemma TickOnTime<M(!new), S(!new)>(env: Platform<M, S>, p: Pipe<M, S>, a: State<M, S>, x: Penalty)
    requires Inv(env, p, a) && Spaced(env, p, a)
    ensures var r := Tick(env, p, x);
            if p.cacheStall > 0 then RetiredBy(env, p) == 0 && Inv(env, r, a) && Spaced(env, r, a) && Wait(env, r, a) == Wait(env, p, a)
            else OnTime(env, p, a, r, RetiredBy(env, p)) && Refines(env, r, Steps(env, a, RetiredBy(env, p)))
  {
    hide Work, Commit, Wait, Spaced, Lost, Cost, Step, Steps, EmAt, Flushes, WbAt, Behind, Structure, MemCheck;
    TickRefines(env, p, a, x);
    Synced(env, p, a);
    FewSteps(env, a);
    if p.cacheStall > 0 {
      StallIsSpaced(env, p, a, p.cacheStall - 1);
    } else {
      WorkOnTime(env, p, a);
      var w := Work(env, p);
      StallIsSpaced(env, w, Steps(env, a, RetiredBy(env, p)), ChargePenalty(w, x).cacheStall);
      StallIsSpaced(env, w, a, ChargePenalty(w, x).cacheStall);
    }
  }

  /** A stopped CPU stays stopped. */
  lemma {:induction false} StoppedStays<M, S>(env: Platform<M, S>, a: State<M, S>, n: nat)
    requires !a.running
    ensures Steps(env, a, n) == a
  {
    if n == 0 {
    } else {
      StoppedStays(env, a, n - 1);
    }
  }

  /** From any moment of a run on: the `k`-th instruction from now has retired exactly if there have been more
      clocks of work than it takes. */
  lemma {:induction false} OnSchedule<M(!new), S(!new)>(env: Platform<M, S>, p: Pipe<M, S>, a: State<M, S>, penalties: seq<Penalty>, k: nat)
    requires Inv(env, p, a) && Spaced(env, p, a) && Steps(env, a, k).running
    ensures RetiredIn(env, p, penalties) > k <==> WorkedIn(env, p, penalties) > Wait(env, p, a) + Later(env, a, k)
    decreases |penalties|
  {
    hide Inv, Spaced, Tick, RetiredBy, Wait, Lost, Cost, Step, Steps, Refines, Later;
    if penalties == [] {
    } else {
      var x, xs := penalties[0], penalties[1..];
      assert penalties == [x] + xs;
      RunFirst(env, p, x, xs);
      TickOnTime(env, p, a, x);
      RunsOn(env, p, a);
      var n, r := RetiredBy(env, p), Tick(env, p, x);
      FewSteps(env, a);
      LaterFirst(env, a, k);
      LaterFirst(env, Step(env, a), k - 1);
      if p.cacheStall > 0 {
        OnSchedule(env, r, a, xs, k);
      } else if n <= k {
        var d := Steps(env, a, n);
        StepsAdd(env, a, n, k - n);
        if !d.running {
          StoppedStays(env, d, k - n);
        }
        StillRuns(env, r, d);
        OnSchedule(env, r, d, xs, k - n);
      }
    }
  }

  lemma LaterFirst<M, S>(env: Platform<M, S>, a: State<M, S>, k: int)
    ensures k == 0 ==> Later(env, a, k) == 0
    ensures k > 0 ==> Later(env, a, k) == Lost(env, a) + Cost(env, Step(env, a)) + Later(env, Step(env, a), k - 1)
  {
    hide Lost, Cost, Step;
  }

  lemma RunsOn<M(!new), S(!new)>(env: Platform<M, S>, p: Pipe<M, S>, a: State<M, S>)
    requires Inv(env, p, a)
    ensures p.running
  {
  }

  lemma StillRuns<M(!new), S(!new)>(env: Platform<M, S>, p: Pipe<M, S>, a: State<M, S>)
    requires Refines(env, p, a) && a.running
    ensures Inv(env, p, a) && p.running
  {
    hide Wired, Structure, Behind, Flushes, WbAt, MemCheck;
  }

  /** The clock, counting from 1, in which the `k`-th instruction of a program retires, counting from 0: the
      first one goes through the empty pipeline, and every other one follows the one before. */
  function RetireClock<M, S>(env: Platform<M, S>, s: State<M, S>, k: nat): nat {
    4 + Cost(env, s) + Later(env, s, k)
  }

  /** Main result: after a reset and any clocks with any penalties, more than `k` instructions have retired
      exactly if at least `RetireClock` clocks were neither stalled by the cache nor after a stop. */
  lemma PipelineIsOnTime<M(!new), S(!new)>(env: Platform<M, S>, s: State<M, S>, penalties: seq<Penalty>, k: nat)
    requires Wired(env) && s.running && s.reg[0] == 0 && s.executed == 0 && s.dataFaults == 0
    requires Steps(env, s, k).running
    ensures var start := Reset(s.reg, s.pc, s.mode, s.sys, s.mem);
            RetiredIn(env, start, penalties) > k <==> WorkedIn(env, start, penalties) >= RetireClock(env, s, k)
  {
    hide Wired, Later, Cost, RetiredIn, WorkedIn, Steps, Flushes, Behind, WbAt;
    var start := Reset(s.reg, s.pc, s.mode, s.sys, s.mem);
    RestartedRefines(env, start, s);
    OnSchedule(env, start, s, penalties, k);
  }

  /** Penalties charged by the clocks of work. */
  function Charged<M, S>(env: Platform<M, S>, p: Pipe<M, S>, penalties: seq<Penalty>): nat
    decreases |penalties|
  {
    if penalties == [] then 0
    else ChargedBy(p, penalties[0]) + Charged(env, Tick(env, p, penalties[0]), penalties[1..])
  }

  function ChargedBy<M, S>(p: Pipe<M, S>, x: Penalty): nat {
    if WorkedBy(p) == 1 then x.fetch + x.load else 0
  }

  lemma DrainStall<M, S>(env: Platform<M, S>, q: Pipe<M, S>, next: Slot<MemWb>, halted: bool)
    ensures Drain(env, q, next, halted).cacheStall == q.cacheStall
  {
    hide Advance, LoadUse, MulDivLatency;
    AdvanceFrame(env, q, next, halted);
    AdvanceFrame(env, q.(exLeft := 0, exArmed := false), next, halted);
  }

  lemma WorkStall<M, S>(env: Platform<M, S>, p: Pipe<M, S>)
    ensures Work(env, p).cacheStall == p.cacheStall
  {
    hide Drain, MemCheck, MemStage, WriteBack;
    var c := Commit(env, p);
    DrainStall(env, c.p, Empty, c.halted);
    if c.p.exMem.Full? {
      var (wb, mem) := MemStage(env, c.p.sys, c.p.mem, c.p.exMem.e);
      DrainStall(env, c.p.(mem := mem), Full(wb), c.halted);
    }
  }

  lemma TickStall<M, S>(env: Platform<M, S>, p: Pipe<M, S>, x: Penalty)
    ensures var r := Tick(env, p, x);
            && (r.running ==> p.running)
            && (p.running ==> r.cacheStall + 1 == p.cacheStall + WorkedBy(p) + ChargedBy(p, x))
  {
    hide Work;
    WorkStall(env, SyncFromBlock(p));
  }

  /** As long as the CPU runs, the clocks that are not clocks of work are exactly the penalties paid. */
  lemma {:induction false} ClocksAccounted<M, S>(env: Platform<M, S>, p: Pipe<M, S>, penalties: seq<Penalty>)
    requires Run(env, p, penalties).running
    ensures |penalties| + Run(env, p, penalties).cacheStall == WorkedIn(env, p, penalties) + p.cacheStall + Charged(env, p, penalties)
    ensures p.running
    decreases |penalties|
  {
    hide Tick;
    if penalties == [] {
    } else {
      TickStall(env, p, penalties[0]);
      ClocksAccounted(env, Tick(env, p, penalties[0]), penalties[1..]);
    }
  }

  lemma {:induction false} NoneStalled<M, S>(env: Platform<M, S>, p: Pipe<M, S>, penalties: seq<Penalty>)
    requires (forall k :: 0 <= k < |penalties| ==> penalties[k] == Penalty(0, 0)) && p.cacheStall == 0
    requires Run(env, p, penalties).running
    ensures WorkedIn(env, p, penalties) == |penalties| && p.running
    decreases |penalties|
  {
    hide Tick;
    if penalties == [] {
    } else {
      ClocksAccounted(env, p, penalties);
      TickStall(env, p, penalties[0]);
      NoneStalled(env, Tick(env, p, penalties[0]), penalties[1..]);
    }
  }

  /** Without penalties, then: as long as the CPU runs, more than `k` instructions have retired exactly if
      `RetireClock` clocks have passed since the reset. */
  lemma TimingWithoutPenalties<M(!new), S(!new)>(env: Platform<M, S>, s: State<M, S>, penalties: seq<Penalty>, k: nat)
    requires Wired(env) && s.running && s.reg[0] == 0 && s.executed == 0 && s.dataFaults == 0
    requires Steps(env, s, k).running && forall i :: 0 <= i < |penalties| ==> penalties[i] == Penalty(0, 0)
    requires Run(env, Reset(s.reg, s.pc, s.mode, s.sys, s.mem), penalties).running
    ensures RetiredIn(env, Reset(s.reg, s.pc, s.mode, s.sys, s.mem), penalties) > k <==> |penalties| >= RetireClock(env, s, k)
  {
    hide Wired, Run, RetiredIn, WorkedIn, RetireClock, Steps;
    NoneStalled(env, Reset(s.reg, s.pc, s.mode, s.sys, s.mem), penalties);
    PipelineIsOnTime(env, s, penalties, k);
  }
}
