/**
 What user code can do to the privilege state: nothing, but for entering a trap. Stated on the fields of
 the machine state, for the modelled privilege unit, over single instructions and over whole runs.
 */
module UserMode {
  import opened Isa
  import opened Wrappers
  import opened PrivilegeUnit
  import opened PageTables
  import P = Privilege
  import T = Tlb
  import IsaLaws
  import Pipeline
  import X = PipelineTheorems

  /** CAUSE of an exception: bit 31, the kind, and the details. */
  function CauseWord(e: Exception): Word {
    match e
    case IllegalInstruction => 0x8001_0000
    case BusError => 0x8002_0000
    case SyscallTrap(number) => 0x8003_0000 + number
    case PrivilegedInstruction => 0x8004_0000
    case ProtectionFault(access) => 0x8005_0000 + AccessBit(access)
    case PageFault(access, protection, _) => 0x8006_0000 + AccessBit(access) + P.Flag(protection, 8)
  }

  function AccessBit(access: Access): nat {
    match access case Read => 1 case Write => 2 case Fetch => 4
  }

  /** What a handler reads off: bit 31, the kind in bits 23 to 16, and the details below. */
  lemma CauseFields(e: Exception)
    ensures var cause := CauseWord(e);
            var kind, detail := cause / 0x1_0000 % 0x100, cause % 0x1_0000;
            && cause / 0x8000_0000 == 1
            && match e
               case IllegalInstruction => kind == 1 && detail == 0
               case BusError => kind == 2 && detail == 0
               case SyscallTrap(number) => kind == 3 && detail % 0x100 == number % 0x100 && detail / 0x100 == number / 0x100
               case PrivilegedInstruction => kind == 4 && detail == 0
               case ProtectionFault(access) => kind == 5 && detail == (match access case Read => 1 case Write => 2 case Fetch => 4)
               case PageFault(access, protection, _) =>
                 kind == 6 && detail % 8 == (match access case Read => 1 case Write => 2 case Fetch => 4) && detail / 8 == (if protection then 1 else 0)
  {
  }

  /** A handler can tell exceptions apart by CAUSE, and page faults by VFAULT besides. */
  lemma CauseTells(e: Exception, f: Exception)
    requires CauseWord(e) == CauseWord(f) && (e.PageFault? && f.PageFault? ==> e.addr == f.addr)
    ensures e == f
  {
  }

  /** `t` is what exception `e` makes of the user state `s`: supervisor mode with interrupts off, what was
      there before put away, the supervisor's R28 to R30 live, and the CPU in Normal mode at the handler. */
  ghost predicate Trapped<M>(env: Platform<M, P.System>, s: State<M, P.System>, t: State<M, P.System>, e: Exception, epc: Word) {
    var (handler, mem) := env.readVector(s.mem, e);
    && !t.sys.user && t.sys.pu && !t.sys.ie && t.sys.pie == s.sys.ie && t.sys.psm == s.mode
    && t.sys.epc == epc && t.sys.cause == CauseWord(e)
    && t.sys.other == [s.reg[28], s.reg[29], s.reg[30]] && t.sys.regions == s.sys.regions
    && t.sys.vm == s.sys.vm.(vfault := if e.PageFault? then e.addr else s.sys.vm.vfault)
    && t.reg == s.reg[28 := s.sys.other[0]][29 := s.sys.other[1]][30 := s.sys.other[2]]
    && t.pc == handler && t.mem == mem && t.mode == Normal && (t.running <==> handler != env.vectorAddress(e))
  }

  /** Whatever the counters. */
  lemma EntersTrap<M(!new)>(env: Platform<M, P.System>, tables: T.Memory, s: State<M, P.System>, u: State<M, P.System>,
                            e: Exception, epc: Word)
    requires IsSystem(env, tables, CauseWord) && s.sys.user && u == s.(executed := u.executed)
    ensures Trapped(env, s, EnterException(env, u, e, epc), e, epc)
    ensures Trapped(env, s, DataFault(env, u, e, epc), e, epc)
  {
    hide CauseWord, P.CheckAnswer, P.LeaveTrap, P.ReadSr, P.WriteSr;
    assert P.LiveBank(s.reg) == [s.reg[28], s.reg[29], s.reg[30]];
  }

  /** The next instruction traps. It is the one to return to, but for SYSCALL. */
  ghost predicate TrapsWith<M>(env: Platform<M, P.System>, s: State<M, P.System>, e: Exception) {
    Trapped(env, s, Step(env, s), e, if e.SyscallTrap? then (s.pc + 4) % 0x1_0000_0000 else s.pc)
  }

  /** HALT, IRET, MFSR and MTSR. */
  predicate ForSupervisor(i: Instr) {
    match i
    case Halt => true
    case Iret => true
    case Mfsr(_, _) => true
    case Mtsr(_, _) => true
    case _ => false
  }

  /** What the privilege unit refuses is not a privileged instruction. */
  lemma RefusalsDiffer(tables: T.Memory, s: P.System, addr: Word, n: nat, access: Access)
    requires 1 <= n <= 4 && P.CheckAnswer(tables, s, addr, n, access).Some?
    ensures s.user
    ensures var e := P.CheckAnswer(tables, s, addr, n, access).value; !e.PrivilegedInstruction? && !e.SyscallTrap?
  {
    hide P.CheckAnswer;
    AnswerMeans(s, tables, addr, n, access);
  }

  lemma UserIs<M(!new)>(env: Platform<M, P.System>, tables: T.Memory, sys: P.System)
    requires IsSystem(env, tables, CauseWord)
    ensures env.user(sys) == sys.user
    ensures forall a, n, access :: env.check(sys, a, n, access) == P.CheckAnswer(tables, sys, a, n, access)
    ensures forall r, e, pc, m :: !env.trap(sys, r, e, pc, m).0.user
  {
    hide CauseWord, P.CheckAnswer, P.LeaveTrap, P.ReadSr, P.WriteSr;
  }

  /** One instruction of user code leaves the privilege state alone and the CPU running, or traps; a fetched
      HALT, IRET, MFSR or MTSR traps as a privileged instruction, and nothing else does. */
  lemma UserStepIsConfined<M(!new)>(env: Platform<M, P.System>, tables: T.Memory, s: State<M, P.System>)
    returns (e: Option<Exception>)
    requires IsSystem(env, tables, CauseWord) && s.sys.user && s.running
    ensures if e.Some? then TrapsWith(env, s, e.value) else Step(env, s).sys == s.sys && Step(env, s).running
    ensures var refused := env.check(s.sys, s.pc, if s.mode == Normal then 4 else 2, Fetch);
            && (refused.Some? ==> e == refused)
            && (e == Some(PrivilegedInstruction) <==>
                  refused.None? && s.mode == Normal && ForSupervisor(env.normal(s.sys, s.pc)))
  {
    hide CauseWord, P.CheckAnswer, P.LeaveTrap, P.ReadSr, P.WriteSr, P.EnterTrap, Trapped, ExecuteNormal, ExecuteShort;
    var fetched := env.check(s.sys, s.pc, Size(s.mode), Fetch);
    if fetched.Some? {
      e := fetched;
      RefusalsDiffer(tables, s.sys, s.pc, Size(s.mode), Fetch);
      EntersTrap(env, tables, s, s, e.value, s.pc);
    } else if s.mode == Normal {
      e := NormalIsConfined(env, tables, s, env.normal(s.sys, s.pc));
    } else {
      e := ShortIsConfined(env, tables, s, env.short(s.sys, s.pc));
    }
  }

  lemma NormalIsConfined<M(!new)>(env: Platform<M, P.System>, tables: T.Memory, s: State<M, P.System>, i: Instr)
    returns (e: Option<Exception>)
    requires IsSystem(env, tables, CauseWord) && s.sys.user && s.running
    ensures var t := ExecuteNormal(env, s.(executed := s.executed + 1), i);
            if e.Some? then Trapped(env, s, t, e.value, if e.value.SyscallTrap? then (s.pc + 4) % 0x1_0000_0000 else s.pc)
            else t.sys == s.sys && t.running
    ensures e == Some(PrivilegedInstruction) <==> ForSupervisor(i)
  {
    hide CauseWord, P.CheckAnswer, IsSystem, Trapped, ExecuteNormal;
    match i {
      case Load(rd, base, offset, width) => e := AccessIsConfined(env, tables, s, i, base, offset, width, Read);
      case Store(rd, base, offset, width) => e := AccessIsConfined(env, tables, s, i, base, offset, width, Write);
      case _ => e := PlainIsConfined(env, tables, s, i);
    }
  }

  lemma AccessIsConfined<M(!new)>(env: Platform<M, P.System>, tables: T.Memory, s: State<M, P.System>, i: Instr, base: Reg,
                                  offset: Offset, width: Width, access: Access) returns (e: Option<Exception>)
    requires IsSystem(env, tables, CauseWord) && s.sys.user && s.running
    requires (i.Load? && access == Read) || (i.Store? && access == Write)
    requires i.base == base && i.offset == offset && i.width == width
    ensures var t := ExecuteNormal(env, s.(executed := s.executed + 1), i);
            if e.Some? then Trapped(env, s, t, e.value, s.pc) else t.sys == s.sys && t.running
    ensures e.Some? ==> !e.value.PrivilegedInstruction? && !e.value.SyscallTrap?
  {
    hide CauseWord, P.CheckAnswer, IsSystem, Trapped, ReadReg, SetReg, Narrow, Plus;
    UserIs(env, tables, s.sys);
    var addr := Plus(ReadReg(s.reg, base), offset);
    e := env.check(s.sys, addr, width, access);
    if e.Some? {
      RefusalsDiffer(tables, s.sys, addr, width, access);
      EntersTrap(env, tables, s, s.(executed := s.executed + 1), e.value, s.pc);
    }
  }

  lemma PlainIsConfined<M(!new)>(env: Platform<M, P.System>, tables: T.Memory, s: State<M, P.System>, i: Instr)
    returns (e: Option<Exception>)
    requires IsSystem(env, tables, CauseWord) && s.sys.user && s.running && !i.Load? && !i.Store?
    ensures var t := ExecuteNormal(env, s.(executed := s.executed + 1), i);
            if e.Some? then Trapped(env, s, t, e.value, if e.value.SyscallTrap? then (s.pc + 4) % 0x1_0000_0000 else s.pc)
            else t.sys == s.sys && t.running
    ensures e == Some(PrivilegedInstruction) <==> ForSupervisor(i)
  {
    hide CauseWord, P.CheckAnswer, IsSystem, Trapped, ReadReg, SetReg, MergeLow, MergeHigh;
    UserIs(env, tables, s.sys);
    match i {
      case Syscall(number) => e := Some(SyscallTrap(number));
      case Unknown => e := Some(IllegalInstruction);
      case Halt => e := Some(PrivilegedInstruction);
      case Iret => e := Some(PrivilegedInstruction);
      case Mfsr(_, _) => e := Some(PrivilegedInstruction);
      case Mtsr(_, _) => e := Some(PrivilegedInstruction);
      case _ => e := None;
    }
    if e.Some? {
      EntersTrap(env, tables, s, s.(executed := s.executed + 1), e.value, if e.value.SyscallTrap? then Plus(s.pc, 4) else s.pc);
    }
  }

  lemma ShortIsConfined<M(!new)>(env: Platform<M, P.System>, tables: T.Memory, s: State<M, P.System>, i: ShortInstr)
    returns (e: Option<Exception>)
    requires IsSystem(env, tables, CauseWord) && s.sys.user && s.running
    ensures var t := ExecuteShort(env, s.(executed := s.executed + 1), i);
            if e.Some? then Trapped(env, s, t, e.value, s.pc) else t.sys == s.sys && t.running
    ensures e.Some? ==> !e.value.PrivilegedInstruction? && !e.value.SyscallTrap?
  {
    hide CauseWord, P.CheckAnswer, P.LeaveTrap, P.ReadSr, P.WriteSr, P.EnterTrap, Trapped, ReadReg, SetReg, Gpr;
    match i {
      case SLoad(rd, rs1) =>
        e := env.check(s.sys, ReadReg(s.reg, Gpr(rs1)), 4, Read);
        if e.Some? {
          RefusalsDiffer(tables, s.sys, ReadReg(s.reg, Gpr(rs1)), 4, Read);
        }
      case SStore(rd, rs1) =>
        e := env.check(s.sys, ReadReg(s.reg, Gpr(rd)), 4, Write);
        if e.Some? {
          RefusalsDiffer(tables, s.sys, ReadReg(s.reg, Gpr(rd)), 4, Write);
        }
      case SUnknown => e := Some(IllegalInstruction);
      case _ => e := None;
    }
    if e.Some? {
      EntersTrap(env, tables, s, s.(executed := s.executed + 1), e.value, s.pc);
    }
  }

  // ---- runs ----

  /** The first `n` instructions left the privilege state alone and the CPU running. */
  ghost predicate Undisturbed<M>(env: Platform<M, P.System>, s: State<M, P.System>, n: nat) {
    forall k: nat :: k <= n ==> Steps(env, s, k).sys == s.sys && Steps(env, s, k).running
  }

  /** Main result: however long user code runs, the first instruction that changes the privilege state or
      stops the CPU, if there is one, traps. */
  lemma {:induction false} UserRunIsConfined<M(!new)>(env: Platform<M, P.System>, tables: T.Memory, s: State<M, P.System>, n: nat)
    returns (k: nat)
    requires IsSystem(env, tables, CauseWord) && s.sys.user && s.running
    ensures k <= n && Undisturbed(env, s, k) && (k < n ==> exists e :: TrapsWith(env, Steps(env, s, k), e))
  {
    hide IsSystem, TrapsWith, Step;
    if n == 0 {
      k := 0;
    } else {
      k := UserRunIsConfined(env, tables, s, n - 1);
      if k == n - 1 {
        var e := UserStepIsConfined(env, tables, Steps(env, s, n - 1));
        if e.None? {
          k := n;
        }
      }
    }
  }

  /** The same for the pipeline, whatever its clocks and penalties: while nothing has trapped, its
      privilege state is the one it started in. */
  lemma UserPipelineIsConfined<M(!new)>(env: Platform<M, P.System>, tables: T.Memory, s: State<M, P.System>,
                                        penalties: seq<Pipeline.Penalty>)
    requires IsSystem(env, tables, CauseWord) && (forall a: Word :: tables(a).Some?) && s.sys.user
    requires s.running && s.reg[0] == 0 && s.executed == 0 && s.dataFaults == 0
    ensures var start := Pipeline.Reset(s.reg, s.pc, s.mode, s.sys, s.mem);
            var p, n := X.Run(env, start, penalties), X.RetiredIn(env, start, penalties);
            || (p.sys == s.sys && p.running)
            || exists k: nat, e :: k < n && Undisturbed(env, s, k) && TrapsWith(env, Steps(env, s, k), e)
  {
    hide IsSystem, TrapsWith, Step, Wired;
    SystemIsWired(env, tables, CauseWord);
    X.PipelineRefinesScalar(env, s, penalties);
    var n := X.RetiredIn(env, Pipeline.Reset(s.reg, s.pc, s.mode, s.sys, s.mem), penalties);
    var k := UserRunIsConfined(env, tables, s, n);
    assert Steps(env, s, k).running;
  }

  // ---- memory ----

  /** The only access of an instruction that does not trap: a load or a store that the privilege unit
      allowed, byte for byte. */
  ghost predicate AllowedAccess<M>(env: Platform<M, P.System>, s: State<M, P.System>, mem: M, addr: Word, width: Width, value: Word) {
    || (env.check(s.sys, addr, width, Read).None? && mem == env.load(s.mem, s.sys, addr, width).1)
    || (env.check(s.sys, addr, width, Write).None? && mem == env.store(s.mem, s.sys, addr, width, value))
  }

  /** User code that does not trap touches memory only where `check` (see `PageTables.AnswerMeans`) lets it. */
  lemma UserMemoryIsGranted<M(!new)>(env: Platform<M, P.System>, tables: T.Memory, s: State<M, P.System>)
    requires IsSystem(env, tables, CauseWord) && s.sys.user && s.running && Step(env, s).sys.user
    ensures var t := Step(env, s);
            t.mem == s.mem || exists addr, width, value :: AllowedAccess(env, s, t.mem, addr, width, value)
  {
    hide ExecuteNormal, ExecuteShort, IsSystem;
    UserIs(env, tables, s.sys);
    if s.mode == Normal {
      NormalMemory(env, s, env.normal(s.sys, s.pc));
    } else {
      ShortMemory(env, s, env.short(s.sys, s.pc));
    }
  }

  lemma NormalMemory<M>(env: Platform<M, P.System>, s: State<M, P.System>, i: Instr)
    requires env.user(s.sys) && s.sys.user && forall r, e, pc, m :: !env.trap(s.sys, r, e, pc, m).0.user
    ensures var t := ExecuteNormal(env, s.(executed := s.executed + 1), i);
            !t.sys.user || t.mem == s.mem || exists addr, width, value :: AllowedAccess(env, s, t.mem, addr, width, value)
  {
    hide ReadReg, SetReg, Plus, MergeLow, MergeHigh, Narrow;
    var t := ExecuteNormal(env, s.(executed := s.executed + 1), i);
    match i {
      case Load(rd, base, offset, width) =>
        assert !t.sys.user || AllowedAccess(env, s, t.mem, Plus(ReadReg(s.reg, base), offset), width, 0);
      case Store(rd, base, offset, width) =>
        assert !t.sys.user
               || AllowedAccess(env, s, t.mem, Plus(ReadReg(s.reg, base), offset), width, Narrow(width, ReadReg(s.reg, rd)));
      case _ =>
    }
  }

  lemma ShortMemory<M>(env: Platform<M, P.System>, s: State<M, P.System>, i: ShortInstr)
    requires s.sys.user && forall r, e, pc, m :: !env.trap(s.sys, r, e, pc, m).0.user
    ensures var t := ExecuteShort(env, s.(executed := s.executed + 1), i);
            !t.sys.user || t.mem == s.mem || exists addr, width, value :: AllowedAccess(env, s, t.mem, addr, width, value)
  {
    hide ReadReg, SetReg, Gpr, Plus;
    var t := ExecuteShort(env, s.(executed := s.executed + 1), i);
    match i {
      case SLoad(rd, rs1) => assert !t.sys.user || AllowedAccess(env, s, t.mem, ReadReg(s.reg, Gpr(rs1)), 4, 0);
      case SStore(rd, rs1) =>
        assert !t.sys.user || AllowedAccess(env, s, t.mem, ReadReg(s.reg, Gpr(rd)), 4, ReadReg(s.reg, Gpr(rs1)));
      case _ =>
    }
  }

  // ---- supervisor code ----

  /** Supervisor code is obeyed: HALT stops it, IRET restores what the last trap put away, and MFSR and
      MTSR reach the system registers, or are illegal for a number that has none. */
  lemma SupervisorIsObeyed<M(!new)>(env: Platform<M, P.System>, tables: T.Memory, s: State<M, P.System>)
    requires IsSystem(env, tables, CauseWord) && !s.sys.user && s.running && s.mode == Normal && T.Shaped(s.sys.vm)
    ensures var i, t, u := env.normal(s.sys, s.pc), Step(env, s), s.(pc := (s.pc + 4) % 0x1_0000_0000, executed := s.executed + 1);
            match i
            case Halt => t == u.(running := false)
            case Iret => t == u.(pc := s.sys.epc, mode := s.sys.psm, sys := t.sys, reg := t.reg) && Resumed(s, t)
            case Mfsr(rd, n) =>
              if P.ReadSr(s.sys, s.reg, n).None? then t.sys.cause == CauseWord(IllegalInstruction)
              else t == u.(reg := t.reg) && t.reg == if rd == 0 then s.reg else s.reg[rd := P.ReadSr(s.sys, s.reg, n).value]
            case Mtsr(rs, n) =>
              var w := P.WriteSr(s.sys, s.reg, n, if rs == 0 then 0 else s.reg[rs]);
              if w.None? then t.sys.cause == CauseWord(IllegalInstruction) else t == u.(sys := w.value.0, reg := w.value.1)
            case _ => true
  {
    hide CauseWord, P.ReadSr, P.WriteSr;
    assert P.LiveBank(s.reg) == [s.reg[28], s.reg[29], s.reg[30]];
  }

  /** Interrupts as before the trap, and the mode it came from, with the user's R28 to R30 for user code. */
  predicate Resumed<M>(s: State<M, P.System>, t: State<M, P.System>) {
    && t.sys == s.sys.(ie := s.sys.pie, user := s.sys.pu, other := t.sys.other)
    && if s.sys.pu then
         && t.reg == s.reg[28 := s.sys.other[0]][29 := s.sys.other[1]][30 := s.sys.other[2]]
         && t.sys.other == [s.reg[28], s.reg[29], s.reg[30]]
       else t.reg == s.reg && t.sys.other == s.sys.other
  }

  /** Neither traps nor returns nor MTSR change a register but R28 to R30. */
  lemma OnlyBanksChange<M(!new)>(env: Platform<M, P.System>, tables: T.Memory, r: Reg)
    requires IsSystem(env, tables, CauseWord) && !(28 <= r < 31)
    ensures IsaLaws.BanksOnly(env, r)
  {
    hide CauseWord, P.CheckAnswer, P.ReadSr;
    forall s: P.System, reg: Regs, n: Half, v: Word | env.writeSr(s, reg, n, v).Some?
      ensures env.writeSr(s, reg, n, v).value.1[r] == reg[r]
    {
      WriteKeeps(s, reg, n, v, r);
    }
  }

  lemma WriteKeeps(s: P.System, reg: Regs, n: Half, v: Word, r: Reg)
    requires T.Shaped(s.vm) && P.WriteSr(s, reg, n, v).Some? && !(28 <= r < 31)
    ensures P.WriteSr(s, reg, n, v).value.1[r] == reg[r]
  {
    hide P.WriteVm, P.SetStatus, P.SetRegion;
  }
}
