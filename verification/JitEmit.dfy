/** The code of one instruction does to the registers and the PC what the interpreter does. */
module JitEmit {
  import opened Isa
  import opened Wrappers
  import Arith
  import opened JitIr

  /** The platform's arithmetic unit is the 32-bit one. */
  ghost predicate ExactAlu<M(!new), S(!new)>(env: Platform<M, S>) {
    forall op, a, b :: env.alu(op, a, b) == Arith.Alu(op, a, b)
  }

  lemma RunBinary(sem: Semantics, reg: Regs, r1: Reg, r2: Reg, rd: Reg, e: Expr, v: Word, next: Word)
    requires Eval(sem, e, [ReadReg(reg, r1), ReadReg(reg, r2)]) == Some(v)
    ensures Run(sem, Emitted([LoadOf(r1), LoadOf(r2)] + StoreOf(rd, e), Const(next)), reg) == Some((SetReg(reg, rd, v), next))
  {
    RunLoads(sem, reg, r1, r2, StoreOf(rd, e));
    RunStore(sem, Machine([ReadReg(reg, r1), ReadReg(reg, r2)], reg), rd, e, v);
  }

  lemma RunUnary(sem: Semantics, reg: Regs, r: Reg, rd: Reg, e: Expr, v: Word, next: Word)
    requires Eval(sem, e, [ReadReg(reg, r)]) == Some(v)
    ensures Run(sem, Emitted([LoadOf(r)] + StoreOf(rd, e), Const(next)), reg) == Some((SetReg(reg, rd, v), next))
  {
    RunOneLoad(sem, reg, r, StoreOf(rd, e));
    RunStore(sem, Machine([ReadReg(reg, r)], reg), rd, e, v);
  }

  lemma RunBranch(sem: Semantics, reg: Regs, r1: Reg, r2: Reg, onEqual: bool, target: Word, next: Word)
    ensures Run(sem, Emitted([LoadOf(r1), LoadOf(r2)],
                             Select(Icmp(if onEqual then Equal else NotEqual, Val(0), Val(1)), Const(target), Const(next))), reg)
         == Some((reg, if (ReadReg(reg, r1) == ReadReg(reg, r2)) == onEqual then target else next))
  {
    RunLoads(sem, reg, r1, r2, []);
    assert [LoadOf(r1), LoadOf(r2)] + [] == [LoadOf(r1), LoadOf(r2)];
    var vals := [ReadReg(reg, r1), ReadReg(reg, r2)];
    var cond := if onEqual then Equal else NotEqual;
    EvalIcmp(sem, cond, Val(0), Val(1), vals, vals[0], vals[1]);
    EvalSelect(sem, Icmp(cond, Val(0), Val(1)), Const(target), Const(next), vals,
               Flag(JitIr.Holds(cond, vals[0], vals[1])), target, next);
  }

  lemma RunJump(sem: Semantics, reg: Regs, link: bool, next: Word, target: Word)
    ensures Run(sem, Emitted(if link then StoreOf(REG_LR, Const(next)) else [], Const(target)), reg)
         == Some((if link then SetReg(reg, REG_LR, next) else reg, target))
  {
    RunStore(sem, Machine([], reg), REG_LR, Const(next), next);
  }

  /** The target is read before the link register is written. */
  lemma RunJumpReg(sem: Semantics, reg: Regs, link: bool, rd: Reg, next: Word)
    ensures Run(sem, Emitted([LoadOf(rd)] + (if link then StoreOf(REG_LR, Const(next)) else []), Val(0)), reg)
         == Some((if link then SetReg(reg, REG_LR, next) else reg, ReadReg(reg, rd)))
  {
    var rest := if link then StoreOf(REG_LR, Const(next)) else [];
    RunOneLoad(sem, reg, rd, rest);
    RunStore(sem, Machine([ReadReg(reg, rd)], reg), REG_LR, Const(next), next);
  }

  lemma RunCpuid(sem: Semantics, reg: Regs, id: Reg, feature: Reg, x: Word, y: Word, next: Word)
    requires id != 0 && feature != 0
    ensures Run(sem, Emitted(StoreOf(id, Const(x)) + StoreOf(feature, Const(y)), Const(next)), reg)
         == Some((SetReg(SetReg(reg, id, x), feature, y), next))
  {
    var stmts := StoreOf(id, Const(x)) + StoreOf(feature, Const(y));
    assert stmts[0] == StoreReg(id, Const(x)) && stmts[1..] == StoreOf(feature, Const(y));
    RunStore(sem, Machine([], reg[id := x]), feature, Const(y), y);
  }

  lemma AddImmediate(vals: seq<Word>, imm: Offset)
    requires |vals| == 1
    ensures Eval(EvalBin, Bin(Iadd, Val(0), Const(imm)), vals) == Some(Plus(vals[0], imm))
  {
    EvalOp(EvalBin, Iadd, Val(0), Const(imm), vals, vals[0], Arith.Wrap(imm));
  }

  lemma MergeHalf(vals: seq<Word>, mask: int, keep: Word, bits: Word)
    requires |vals| == 1 && Arith.Wrap(mask) == keep
    ensures Eval(EvalBin, Bin(Bor, Bin(Band, Val(0), Const(mask)), Const(bits)), vals)
         == Some(Arith.Or(Arith.And(vals[0], keep), bits))
  {
    EvalOp(EvalBin, Band, Val(0), Const(mask), vals, vals[0], keep);
    EvalOp(EvalBin, Bor, Bin(Band, Val(0), Const(mask)), Const(bits), vals, Arith.And(vals[0], keep), bits);
  }

  /** Main result of the emitter: for every supported instruction without a memory access, the code
      never traps and leaves the registers and the PC as the interpreter does. */
  lemma EmitIsExact<M(!new), S(!new)>(env: Platform<M, S>, s: State<M, S>, i: Instr)
    requires Supported(i) && !MemoryAccess(i) && ExactAlu(env) && !env.user(s.sys)
    ensures var t := ExecuteNormal(env, s, i);
            Run(EvalBin, Emit(s.pc, i, env.features), s.reg) == Some((t.reg, t.pc)) && t == s.(reg := t.reg, pc := t.pc)
  {
    var next := Plus(s.pc, 4);
    match i {
      case Nop => assert Run(EvalBin, Emit(s.pc, i, env.features), s.reg) == Some((s.reg, next));
      case Alu(op, rd, rs1, rs2) =>
        var a, b := ReadReg(s.reg, rs1), ReadReg(s.reg, rs2);
        AluIsExact(op, Val(0), Val(1), [a, b], a, b);
        RunBinary(EvalBin, s.reg, rs1, rs2, rd, EmitAlu(op, Val(0), Val(1)), env.alu(op, a, b), next);
      case Addi(rd, rs1, imm) =>
        AddImmediate([ReadReg(s.reg, rs1)], imm);
        RunUnary(EvalBin, s.reg, rs1, rd, Bin(Iadd, Val(0), Const(imm)), Plus(ReadReg(s.reg, rs1), imm), next);
      case Ldil(rd, half) => EmitHalf(env, s, i);
      case Ldih(rd, half) => EmitHalf(env, s, i);
      case Branch(onEqual, rs1, rs2, offset) =>
        RunBranch(EvalBin, s.reg, rs1, rs2, onEqual, Plus(next, offset), next);
      case Jump(link, _, offset) => RunJump(EvalBin, s.reg, link, next, Plus(next, offset));
      case JumpReg(link, _, rd) => RunJumpReg(EvalBin, s.reg, link, rd, next);
      case Cpuid => RunCpuid(EvalBin, s.reg, REG_CPUID, REG_FEATURES, CPU_ID, env.features, next);
    }
  }

  lemma EmitHalf<M(!new), S(!new)>(env: Platform<M, S>, s: State<M, S>, i: Instr)
    requires (i.Ldil? || i.Ldih?) && !env.user(s.sys)
    ensures var t := ExecuteNormal(env, s, i);
            Run(EvalBin, Emit(s.pc, i, env.features), s.reg) == Some((t.reg, t.pc))
  {
    var a, next := ReadReg(s.reg, i.rd), Plus(s.pc, 4);
    Arith.MasksMerge(a, i.half);
    if i.Ldil? {
      MergeHalf([a], -0x1_0000, 0xFFFF_0000, i.half);
      RunUnary(EvalBin, s.reg, i.rd, i.rd, Bin(Bor, Bin(Band, Val(0), Const(-0x1_0000)), Const(i.half)), MergeLow(a, i.half), next);
    } else {
      var bits := i.half * 0x1_0000;
      MergeHalf([a], 0xFFFF, 0xFFFF, bits);
      RunUnary(EvalBin, s.reg, i.rd, i.rd, Bin(Bor, Bin(Band, Val(0), Const(0xFFFF)), Const(bits)), MergeHigh(a, i.half), next);
    }
  }

  /** What is compiled: all but privileged and illegal instructions, SYSCALL and the jumps into Short mode; and a
      block ends at branches and jumps. */
  lemma WhatIsCompiled(i: Instr)
    ensures !Supported(i) <==> i.Halt? || i.Iret? || i.Mfsr? || i.Mtsr? || i.Syscall? || i.Unknown?
                               || (i.Jump? && i.toShort) || (i.JumpReg? && i.toShort)
    ensures Supported(i) ==> (EndsBlock(i) <==> i.Branch? || i.Jump? || i.JumpReg?)
    ensures MemoryAccess(i) <==> i.Load? || i.Store?
  {
  }
}
