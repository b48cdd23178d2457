/** What short programs do on the scalar CPU, in plain numbers, on every platform. */
module IsaLaws {
  import opened Isa
  import opened Wrappers

  /** The next instruction is `i`, and it may be fetched. */
  predicate At<M, S>(env: Platform<M, S>, s: State<M, S>, i: Instr) {
    s.running && s.mode == Normal && env.check(s.sys, s.pc, 4, Fetch).None? && env.normal(s.sys, s.pc) == i
  }

  predicate AtShort<M, S>(env: Platform<M, S>, s: State<M, S>, i: ShortInstr) {
    s.running && s.mode == Short && env.check(s.sys, s.pc, 2, Fetch).None? && env.short(s.sys, s.pc) == i
  }

  // ---- constants ----

  lemma SetsHalf<M, S>(env: Platform<M, S>, s: State<M, S>, rd: Reg, half: Half, low: bool)
    requires rd != 0 && At(env, s, if low then Ldil(rd, half) else Ldih(rd, half))
    ensures Step(env, s)
         == s.(reg := s.reg[rd := if low then s.reg[rd] / 0x1_0000 * 0x1_0000 + half else half * 0x1_0000 + s.reg[rd] % 0x1_0000],
               pc := (s.pc + 4) % 0x1_0000_0000, executed := s.executed + 1)
  {
    Halves(s.reg[rd]);
  }

  lemma Halves(w: Word)
    ensures w - w % 0x1_0000 == w / 0x1_0000 * 0x1_0000
  {
  }

  /** LDIL and LDIH, in this order or the other, load any constant, whatever the register held. */
  lemma LoadConstant<M, S>(env: Platform<M, S>, s: State<M, S>, rd: Reg, low: Half, high: Half, lowFirst: bool)
    requires rd != 0 && At(env, s, if lowFirst then Ldil(rd, low) else Ldih(rd, high))
    requires At(env, Step(env, s), if lowFirst then Ldih(rd, high) else Ldil(rd, low))
    ensures Steps(env, s, 2)
         == s.(reg := s.reg[rd := high * 0x1_0000 + low], pc := (s.pc + 8) % 0x1_0000_0000, executed := s.executed + 2)
  {
    hide Step;
    FewSteps(env, s);
    SetsHalf(env, s, rd, if lowFirst then low else high, lowFirst);
    SetsHalf(env, Step(env, s), rd, if lowFirst then high else low, !lowFirst);
    Joined(s.reg[rd], low, high);
  }

  lemma Joined(w: Word, low: Half, high: Half)
    ensures (w / 0x1_0000 * 0x1_0000 + low) % 0x1_0000 == low
    ensures (high * 0x1_0000 + w % 0x1_0000) / 0x1_0000 == high
  {
  }

  /** CPUID leaves "SRC2" in R1 and the features in R2. */
  lemma CpuidSays<M, S>(env: Platform<M, S>, s: State<M, S>)
    requires At(env, s, Cpuid)
    ensures Step(env, s)
         == s.(reg := s.reg[1 := 0x5352_4332][2 := env.features], pc := (s.pc + 4) % 0x1_0000_0000, executed := s.executed + 1)
  {
  }

  /** The exceptions of a refused fetch, which are not counted as instructions. */
  lemma FetchFaultsAre(access: Access, protection: bool, addr: Word)
    ensures IsFetchFault(ProtectionFault(access)) <==> access == Fetch
    ensures IsFetchFault(PageFault(access, protection, addr)) <==> access == Fetch
    ensures forall e :: IsFetchFault(e) ==> e.ProtectionFault? || e.PageFault?
  {
  }

  // ---- control flow ----

  /** BEQ and BNE on the same operands: one goes on, the other to its target. */
  lemma BranchesSplit<M, S>(env: Platform<M, S>, s: State<M, S>, onEqual: bool, a: Reg, b: Reg, offset: Offset)
    requires At(env, s, Branch(onEqual, a, b, offset))
    ensures var x, y := if a == 0 then 0 else s.reg[a], if b == 0 then 0 else s.reg[b];
            Step(env, s) == s.(pc := (s.pc + 4 + if onEqual == (x == y) then offset else 0) % 0x1_0000_0000, executed := s.executed + 1)
  {
  }

  lemma Calls<M, S>(env: Platform<M, S>, s: State<M, S>, toShort: bool, offset: Offset)
    requires At(env, s, Jump(true, toShort, offset))
    ensures Step(env, s)
         == s.(reg := s.reg[31 := (s.pc + 4) % 0x1_0000_0000], pc := (s.pc + 4 + offset) % 0x1_0000_0000,
               mode := if toShort then Short else Normal, executed := s.executed + 1)
  {
    hide Next;
  }

  lemma Returns<M, S>(env: Platform<M, S>, s: State<M, S>)
    requires At(env, s, JumpReg(false, false, 31))
    ensures Step(env, s) == s.(pc := s.reg[31], executed := s.executed + 1)
  {
  }

  lemma ShortReturns<M, S>(env: Platform<M, S>, s: State<M, S>, i: ShortInstr)
    requires AtShort(env, s, i) && (i == SJumpReg(15) || i == SRet)
    ensures Step(env, s)
         == if i.SRet? then s.(pc := (s.pc + 2) % 0x1_0000_0000, mode := Normal, executed := s.executed + 1)
            else s.(pc := s.reg[31], executed := s.executed + 1)
  {
  }

  /** A call and the return through R31: the caller goes on behind the call. */
  lemma CallReturns<M, S>(env: Platform<M, S>, s: State<M, S>, offset: Offset)
    requires At(env, s, Jump(true, false, offset)) && At(env, Step(env, s), JumpReg(false, false, 31))
    ensures Step(env, s).pc == (s.pc + 4 + offset) % 0x1_0000_0000
    ensures var next := (s.pc + 4) % 0x1_0000_0000;
            Steps(env, s, 2) == s.(reg := s.reg[31 := next], pc := next, executed := s.executed + 2)
  {
    hide Step;
    FewSteps(env, s);
    Calls(env, s, false, offset);
    Returns(env, Step(env, s));
  }

  /** The same through a register, which may itself be R31. */
  lemma IndirectCall<M, S>(env: Platform<M, S>, s: State<M, S>, toShort: bool, r: Reg)
    requires At(env, s, JumpReg(true, toShort, r))
    ensures Step(env, s)
         == s.(reg := s.reg[31 := (s.pc + 4) % 0x1_0000_0000], pc := if r == 0 then 0 else s.reg[r],
               mode := if toShort then Short else Normal, executed := s.executed + 1)
  {
  }

  /** A call into Short mode returns through its register 15, and S.RET resumes Normal mode two bytes on. */
  lemma ShortCallReturns<M, S>(env: Platform<M, S>, s: State<M, S>, offset: Offset)
    requires At(env, s, Jump(true, true, offset)) && AtShort(env, Step(env, s), SJumpReg(15))
    requires AtShort(env, Steps(env, s, 2), SRet)
    ensures Steps(env, s, 3)
         == s.(reg := s.reg[31 := (s.pc + 4) % 0x1_0000_0000], pc := (s.pc + 6) % 0x1_0000_0000, executed := s.executed + 3)
  {
    hide Step;
    FewSteps(env, s);
    StepsSucc(env, s, 2);
    Calls(env, s, true, offset);
    ShortReturns(env, Step(env, s), SJumpReg(15));
    ShortReturns(env, Steps(env, s, 2), SRet);
  }

  // ---- memory ----

  /** A store that is not refused hands the bus the low bytes of its register. */
  lemma StoreNarrows<M, S>(env: Platform<M, S>, s: State<M, S>, rd: Reg, base: Reg, offset: Offset, width: Width)
    requires At(env, s, Store(rd, base, offset, width))
    ensures var addr := ((if base == 0 then 0 else s.reg[base]) + offset) % 0x1_0000_0000;
            var value := (if rd == 0 then 0 else s.reg[rd]) % (if width == 1 then 0x100 else if width == 2 then 0x1_0000 else 0x1_0000_0000);
            env.check(s.sys, addr, width, Write).None? ==>
              Step(env, s) == s.(mem := env.store(s.mem, s.sys, addr, width, value), pc := (s.pc + 4) % 0x1_0000_0000, executed := s.executed + 1)
  {
  }

  // ---- registers ----

  /** R0 is never written. */
  lemma {:induction false} ZeroStaysZero<M(!new), S(!new)>(env: Platform<M, S>, s: State<M, S>, n: nat)
    requires Wired(env) && s.reg[0] == 0
    ensures Steps(env, s, n).reg[0] == 0
  {
    if n == 0 {
    } else {
      ZeroStaysZero(env, s, n - 1);
      ZeroStep(env, Steps(env, s, n - 1));
    }
  }

  lemma ZeroStep<M(!new), S(!new)>(env: Platform<M, S>, s: State<M, S>)
    requires Wired(env) && s.reg[0] == 0
    ensures Step(env, s).reg[0] == 0
  {
    hide Plus, MergeLow, MergeHigh, Narrow, ReadReg;
  }

  /** The registers an instruction may write, but for the privilege unit's. */
  function Written(d: Decoded): set<Reg> {
    match d
    case N(i) =>
      (match i
       case Alu(_, rd, _, _) => {rd}
       case Addi(rd, _, _) => {rd}
       case Ldil(rd, _) => {rd}
       case Ldih(rd, _) => {rd}
       case Load(rd, _, _, _) => {rd}
       case Jump(link, _, _) => if link then {31} else {}
       case JumpReg(link, _, _) => if link then {31} else {}
       case Cpuid => {1, 2}
       case Mfsr(rd, _) => {rd}
       case _ => {})
    case Sh(i) =>
      match i
      case SMov(rd, _) => {if rd == 15 then 31 else rd}
      case SAdd(rd, _, _) => {if rd == 15 then 31 else rd}
      case SAddi(rd, _) => {if rd == 15 then 31 else rd}
      case SLoad(rd, _) => {if rd == 15 then 31 else rd}
      case SLdi(rd, _) => {if rd == 15 then 31 else rd}
      case SJal(_) => {31}
      case _ => {}
  }

  /** The privilege unit changes no register but R28 to R30. */
  ghost predicate BanksOnly<M, S(!new)>(env: Platform<M, S>, r: Reg) {
    && (forall s: S, reg: Regs, e: Exception, pc: Word, m: Mode :: env.trap(s, reg, e, pc, m).1[r] == reg[r])
    && (forall s: S, reg: Regs :: env.iret(s, reg).1[r] == reg[r])
    && (forall s: S, reg: Regs, n: Half, v: Word :: env.writeSr(s, reg, n, v).Some? ==> env.writeSr(s, reg, n, v).value.1[r] == reg[r])
  }

  /** An instruction writes no register but those, and, through the privilege unit, R28 to R30. */
  lemma OnlyItsRegisters<M(!new), S(!new)>(env: Platform<M, S>, s: State<M, S>, r: Reg)
    requires BanksOnly(env, r) && r !in Written(if s.mode == Normal then N(env.normal(s.sys, s.pc)) else Sh(env.short(s.sys, s.pc)))
    ensures Step(env, s).reg[r] == s.reg[r]
  {
    hide Plus, MergeLow, MergeHigh, Narrow, ReadReg;
  }
}
