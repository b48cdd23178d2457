/**
 The block compiler's code generation: one guest instruction becomes loads, stores and an
 expression for the next PC in a small SSA language. Integer division traps in that language, so
 "never traps" is part of what is proved.
 */
module JitIr {
  import opened Isa
  import opened Wrappers
  import Arith

  datatype BinOp = Iadd | Isub | Imul | Smulhi | Band | Bor | Bxor | Ishl | Ushr | Sshr | Udiv | Sdiv | Srem
  datatype Cond = Equal | NotEqual | SignedLess | UnsignedLess

  /** Values: loaded registers, constants of any 64-bit pattern, and operations on them. */
  datatype Expr =
    | Val(index: nat)
    | Const(bits: int)
    | Bin(op: BinOp, l: Expr, r: Expr)
    | Icmp(cond: Cond, l: Expr, r: Expr)
    | Select(test: Expr, yes: Expr, no: Expr)

  /** Effects on the register array, in order. Each load defines the next value. */
  datatype Stmt = LoadReg(reg: Reg) | Zero | StoreReg(reg: Reg, value: Expr)

  datatype Emitted = Emitted(stmts: seq<Stmt>, next: Expr)

  // ---- meaning ----

  function EvalBin(op: BinOp, a: Word, b: Word): Option<Word> {
    match op
    case Iadd => Some(Arith.Wrap(a + b))
    case Isub => Some(Arith.Wrap(a - b))
    case Imul => Some(Arith.Wrap(a * b))
    case Smulhi => Some(Arith.Wrap(Arith.Signed(a) * Arith.Signed(b) / 0x1_0000_0000))
    case Band => Some(Arith.And(a, b))
    case Bor => Some(Arith.Or(a, b))
    case Bxor => Some(Arith.Xor(a, b))
    case Ishl => Some(Arith.ShiftLeft(a, b % 32))
    case Ushr => Some(Arith.ShiftRight(a, b % 32))
    case Sshr => Some(Arith.ShiftRightSigned(a, b % 32))
    case Udiv => if b == 0 then None else Some(a / b)
    case Sdiv =>
      if b == 0 || (a == Arith.MIN_WORD && b == 0xFFFF_FFFF) then None
      else Some(Arith.Wrap(Arith.TruncDiv(Arith.Signed(a), Arith.Signed(b))))
    case Srem =>
      if b == 0 || (a == Arith.MIN_WORD && b == 0xFFFF_FFFF) then None
      else Some(Arith.Wrap(Arith.TruncMod(Arith.Signed(a), Arith.Signed(b))))
  }

  predicate Holds(cond: Cond, a: Word, b: Word) {
    match cond
    case Equal => a == b
    case NotEqual => a != b
    case SignedLess => Arith.Signed(a) < Arith.Signed(b)
    case UnsignedLess => a < b
  }

  /** What the operations do; `None` is a trap. */
  type Semantics = (BinOp, Word, Word) -> Option<Word>

  /** `None` is a trap, or a use of a value that is not defined yet. */
  function Eval(sem: Semantics, e: Expr, vals: seq<Word>): Option<Word>
    decreases e
  {
    match e
    case Val(k) => if k < |vals| then Some(vals[k]) else None
    case Const(c) => Some(Arith.Wrap(c))
    case Bin(op, l, r) =>
      var a, b := Eval(sem, l, vals), Eval(sem, r, vals);
      if a.Some? && b.Some? then sem(op, a.value, b.value) else None
    case Icmp(cond, l, r) =>
      var a, b := Eval(sem, l, vals), Eval(sem, r, vals);
      if a.Some? && b.Some? then Some(Flag(Holds(cond, a.value, b.value))) else None
    case Select(c, t, f) =>
      var x, a, b := Eval(sem, c, vals), Eval(sem, t, vals), Eval(sem, f, vals);
      if x.Some? && a.Some? && b.Some? then Some(if x.value != 0 then a.value else b.value) else None
  }

  function Flag(b: bool): Word {
    if b then 1 else 0
  }

  datatype Machine = Machine(vals: seq<Word>, reg: Regs)

  function Exec(sem: Semantics, stmts: seq<Stmt>, m: Machine): Option<Machine>
    decreases |stmts|
  {
    if stmts == [] then Some(m)
    else
      match stmts[0]
      case LoadReg(r) => Exec(sem, stmts[1..], m.(vals := m.vals + [m.reg[r]]))
      case Zero => Exec(sem, stmts[1..], m.(vals := m.vals + [0]))
      case StoreReg(r, e) =>
        var v := Eval(sem, e, m.vals);
        if v.Some? then Exec(sem, stmts[1..], m.(reg := m.reg[r := v.value])) else None
  }

  /** Registers and next PC after the code of one instruction. */
  function Run(sem: Semantics, code: Emitted, reg: Regs): Option<(Regs, Word)> {
    var m := Exec(sem, code.stmts, Machine([], reg));
    if m.None? then None
    else
      var pc := Eval(sem, code.next, m.value.vals);
      if pc.None? then None else Some((m.value.reg, pc.value))
  }

  // ---- the compiler ----

  predicate MemoryAccess(i: Instr) {
    i.Load? || i.Store?
  }

  predicate Supported(i: Instr) {
    || i.Nop? || i.Alu? || i.Addi? || i.Ldil? || i.Ldih? || i.Branch? || i.Cpuid? || MemoryAccess(i)
    || ((i.Jump? || i.JumpReg?) && !i.toShort)
  }

  predicate EndsBlock(i: Instr) {
    i.Branch? || ((i.Jump? || i.JumpReg?) && !i.toShort)
  }

  function LoadOf(r: Reg): Stmt {
    if r == 0 then Zero else LoadReg(r)
  }

  function StoreOf(r: Reg, e: Expr): seq<Stmt> {
    if r == 0 then [] else [StoreReg(r, e)]
  }

  function EmitDivision(op: AluOp, a: Expr, b: Expr): Expr
    requires op == Div || op == Mod || op == Divu
  {
    var zero, one := Const(0), Const(1);
    var byZero := Icmp(Equal, b, Const(0));
    if op == Divu then Select(byZero, zero, Bin(Udiv, a, Select(byZero, one, b)))
    else
      var min := Icmp(Equal, a, Const(-0x8000_0000));
      var minusOne := Icmp(Equal, b, Const(-1));
      var special := Bin(Bor, byZero, Bin(Band, min, minusOne));
      var divisor := Select(special, one, b);
      if op == Mod then Bin(Srem, a, divisor) else Select(byZero, zero, Bin(Sdiv, a, divisor))
  }

  function EmitAlu(op: AluOp, a: Expr, b: Expr): Expr {
    match op
    case Add => Bin(Iadd, a, b)
    case Sub => Bin(Isub, a, b)
    case And => Bin(Band, a, b)
    case Or => Bin(Bor, a, b)
    case Xor => Bin(Bxor, a, b)
    case Slt => Icmp(SignedLess, a, b)
    case Sltu => Icmp(UnsignedLess, a, b)
    case Sll => Bin(Ishl, a, Bin(Band, b, Const(31)))
    case Sla => Bin(Ishl, a, Bin(Band, b, Const(31)))
    case Srl => Bin(Ushr, a, Bin(Band, b, Const(31)))
    case Sra => Bin(Sshr, a, Bin(Band, b, Const(31)))
    case Mul => Bin(Imul, a, b)
    case Mulh => Bin(Smulhi, a, b)
    case _ => EmitDivision(op, a, b)
  }

  /** `emit`: the code of one supported instruction that is not a memory access. */
  function Emit(pc: Word, i: Instr, features: Word): Emitted
    requires Supported(i) && !MemoryAccess(i)
  {
    var next := Plus(pc, 4);
    var fall := Const(next);
    match i
    case Nop => Emitted([], fall)
    case Alu(op, rd, rs1, rs2) =>
      Emitted([LoadOf(rs1), LoadOf(rs2)] + StoreOf(rd, EmitAlu(op, Val(0), Val(1))), fall)
    case Addi(rd, rs1, imm) => Emitted([LoadOf(rs1)] + StoreOf(rd, Bin(Iadd, Val(0), Const(imm))), fall)
    case Ldil(rd, half) =>
      Emitted([LoadOf(rd)] + StoreOf(rd, Bin(Bor, Bin(Band, Val(0), Const(-0x1_0000)), Const(half))), fall)
    case Ldih(rd, half) =>
      Emitted([LoadOf(rd)] + StoreOf(rd, Bin(Bor, Bin(Band, Val(0), Const(0xFFFF)), Const(half * 0x1_0000))), fall)
    case Branch(onEqual, rs1, rs2, offset) =>
      Emitted([LoadOf(rs1), LoadOf(rs2)],
              Select(Icmp(if onEqual then Equal else NotEqual, Val(0), Val(1)), Const(Plus(next, offset)), fall))
    case Jump(link, _, offset) =>
      Emitted(if link then StoreOf(REG_LR, fall) else [], Const(Plus(next, offset)))
    case JumpReg(link, _, rd) =>
      Emitted([LoadOf(rd)] + (if link then StoreOf(REG_LR, fall) else []), Val(0))
    case _ => Emitted(StoreOf(REG_CPUID, Const(CPU_ID)) + StoreOf(REG_FEATURES, Const(features)), fall)
  }

  // ---- the code means what the interpreter does ----

  lemma EvalConst(sem: Semantics, c: int, vals: seq<Word>)
    ensures Eval(sem, Const(c), vals) == Some(Arith.Wrap(c))
  {
  }

  lemma EvalIcmp(sem: Semantics, cond: Cond, l: Expr, r: Expr, vals: seq<Word>, a: Word, b: Word)
    requires Eval(sem, l, vals) == Some(a) && Eval(sem, r, vals) == Some(b)
    ensures Eval(sem, Icmp(cond, l, r), vals) == Some(Flag(Holds(cond, a, b)))
  {
  }

  lemma EvalSelect(sem: Semantics, c: Expr, t: Expr, f: Expr, vals: seq<Word>, x: Word, a: Word, b: Word)
    requires Eval(sem, c, vals) == Some(x) && Eval(sem, t, vals) == Some(a) && Eval(sem, f, vals) == Some(b)
    ensures Eval(sem, Select(c, t, f), vals) == Some(if x != 0 then a else b)
  {
  }

  lemma EvalOp(sem: Semantics, op: BinOp, l: Expr, r: Expr, vals: seq<Word>, a: Word, b: Word)
    requires Eval(sem, l, vals) == Some(a) && Eval(sem, r, vals) == Some(b)
    ensures Eval(sem, Bin(op, l, r), vals) == sem(op, a, b)
  {
  }

  lemma FlagAnd(f: Word, g: Word)
    requires f <= 1 && g <= 1
    ensures Arith.BitAnd(f, g) == Flag(f == 1 && g == 1)
  {
    assert Arith.BitAnd(0, 0) == 0;
  }

  lemma OrFrom(f: Word, g: Word, shared: nat)
    requires shared == Arith.BitAnd(f, g) && f + g - shared < 0x1_0000_0000
    ensures Arith.Or(f, g) == f + g - shared
  {
  }

  /** On flags, the bitwise operations are the logical ones. */
  lemma FlagBits(f: bool, g: bool)
    ensures EvalBin(Band, Flag(f), Flag(g)) == Some(Flag(f && g))
    ensures EvalBin(Bor, Flag(f), Flag(g)) == Some(Flag(f || g))
  {
    FlagAnd(Flag(f), Flag(g));
    OrFrom(Flag(f), Flag(g), Flag(f && g));
  }

  /** The test for the two bad divisors. */
  function Special(x: Expr, y: Expr): Expr {
    Bin(Bor, Icmp(Equal, y, Const(0)), Bin(Band, Icmp(Equal, x, Const(-0x8000_0000)), Icmp(Equal, y, Const(-1))))
  }

  lemma DivisorIsSafe(sem: Semantics, x: Expr, y: Expr, vals: seq<Word>, a: Word, b: Word, zero: bool, min: bool, minusOne: bool)
    requires Eval(sem, x, vals) == Some(a) && Eval(sem, y, vals) == Some(b)
    requires zero == (b == 0) && min == (a == Arith.MIN_WORD) && minusOne == (b == 0xFFFF_FFFF)
    requires sem(Band, Flag(min), Flag(minusOne)) == Some(Flag(min && minusOne))
    requires sem(Bor, Flag(zero), Flag(min && minusOne)) == Some(Flag(zero || (min && minusOne)))
    ensures Eval(sem, Select(Special(x, y), Const(1), y), vals) == Some(if zero || (min && minusOne) then 1 else b)
  {
    EvalIcmp(sem, Equal, y, Const(0), vals, b, 0);
    EvalIcmp(sem, Equal, x, Const(-0x8000_0000), vals, a, Arith.MIN_WORD);
    EvalIcmp(sem, Equal, y, Const(-1), vals, b, 0xFFFF_FFFF);
    var flags := Bin(Band, Icmp(Equal, x, Const(-0x8000_0000)), Icmp(Equal, y, Const(-1)));
    EvalOp(sem, Band, Icmp(Equal, x, Const(-0x8000_0000)), Icmp(Equal, y, Const(-1)), vals, Flag(min), Flag(minusOne));
    EvalOp(sem, Bor, Icmp(Equal, y, Const(0)), flags, vals, Flag(zero), Flag(min && minusOne));
    EvalSelect(sem, Special(x, y), Const(1), y, vals, Flag(zero || (min && minusOne)), 1, b);
  }

  /** The value of the emitted division, whatever the operations do, as long as the divisor works. */
  lemma DivisionValue(sem: Semantics, op: AluOp, x: Expr, y: Expr, vals: seq<Word>, a: Word, b: Word, d: Word, q: Word)
    requires op == Div || op == Mod
    requires Eval(sem, x, vals) == Some(a) && Eval(sem, y, vals) == Some(b)
    requires Eval(sem, Select(Special(x, y), Const(1), y), vals) == Some(d)
    requires sem(if op == Mod then Srem else Sdiv, a, d) == Some(q)
    ensures Eval(sem, EmitDivision(op, x, y), vals) == Some(if op == Div && b == 0 then 0 else q)
  {
    var divisor := Select(Special(x, y), Const(1), y);
    if op == Mod {
      EvalOp(sem, Srem, x, divisor, vals, a, d);
    } else {
      var byZero := Icmp(Equal, y, Const(0));
      EvalIcmp(sem, Equal, y, Const(0), vals, b, 0);
      EvalOp(sem, Sdiv, x, divisor, vals, a, d);
      EvalConst(sem, 0, vals);
      EvalSelect(sem, byZero, Const(0), Bin(Sdiv, x, divisor), vals, Flag(b == 0), 0, q);
    }
  }

  lemma UnsignedDivisionValue(sem: Semantics, x: Expr, y: Expr, vals: seq<Word>, a: Word, b: Word, q: Word)
    requires Eval(sem, x, vals) == Some(a) && Eval(sem, y, vals) == Some(b)
    requires sem(Udiv, a, if b == 0 then 1 else b) == Some(q)
    ensures Eval(sem, EmitDivision(Divu, x, y), vals) == Some(if b == 0 then 0 else q)
  {
    var one, byZero := Const(1), Icmp(Equal, y, Const(0));
    var divisor := Select(byZero, one, y);
    EvalConst(sem, 0, vals);
    EvalConst(sem, 1, vals);
    EvalIcmp(sem, Equal, y, Const(0), vals, b, 0);
    EvalSelect(sem, byZero, one, y, vals, Flag(b == 0), 1, b);
    EvalOp(sem, Udiv, x, divisor, vals, a, if b == 0 then 1 else b);
    EvalSelect(sem, byZero, Const(0), Bin(Udiv, x, divisor), vals, Flag(b == 0), 0, q);
  }

  lemma QuotientIsExact(op: AluOp, a: Word, b: Word, d: Word) returns (q: Word)
    requires op == Div || op == Mod
    requires d == if b == 0 || (a == Arith.MIN_WORD && b == 0xFFFF_FFFF) then 1 else b
    ensures EvalBin(if op == Mod then Srem else Sdiv, a, d) == Some(q)
    ensures Arith.Alu(op, a, b) == if op == Div && b == 0 then 0 else q
  {
    Arith.SafeDivisor(a, b, d);
    q := if op == Mod then Arith.Wrap(Arith.TruncMod(Arith.Signed(a), Arith.Signed(d)))
         else Arith.Wrap(Arith.TruncDiv(Arith.Signed(a), Arith.Signed(d)));
  }

  lemma SignedDivisionIsSafe(sem: Semantics, op: AluOp, x: Expr, y: Expr, vals: seq<Word>, a: Word, b: Word, d: Word, q: Word,
                             min: bool, minusOne: bool)
    requires op == Div || op == Mod
    requires Eval(sem, x, vals) == Some(a) && Eval(sem, y, vals) == Some(b)
    requires min == (a == Arith.MIN_WORD) && minusOne == (b == 0xFFFF_FFFF)
    requires sem(Band, Flag(min), Flag(minusOne)) == Some(Flag(min && minusOne))
    requires sem(Bor, Flag(b == 0), Flag(min && minusOne)) == Some(Flag(b == 0 || (min && minusOne)))
    requires d == if b == 0 || (min && minusOne) then 1 else b
    requires sem(if op == Mod then Srem else Sdiv, a, d) == Some(q)
    ensures Eval(sem, EmitDivision(op, x, y), vals) == Some(if op == Div && b == 0 then 0 else q)
  {
    DivisorIsSafe(sem, x, y, vals, a, b, b == 0, min, minusOne);
    DivisionValue(sem, op, x, y, vals, a, b, d, q);
  }

  /** Division never traps and follows the interpreter's special cases. */
  lemma DivisionIsSafe(op: AluOp, x: Expr, y: Expr, vals: seq<Word>, a: Word, b: Word)
    requires (op == Div || op == Mod || op == Divu) && Eval(EvalBin, x, vals) == Some(a) && Eval(EvalBin, y, vals) == Some(b)
    ensures Eval(EvalBin, EmitDivision(op, x, y), vals) == Some(Arith.Alu(op, a, b))
  {
    if op == Divu {
      var q := EvalBin(Udiv, a, if b == 0 then 1 else b);
      UnsignedDivisionValue(EvalBin, x, y, vals, a, b, q.value);
    } else {
      var min, minusOne := a == Arith.MIN_WORD, b == 0xFFFF_FFFF;
      var d: Word := if b == 0 || (min && minusOne) then 1 else b;
      var q := QuotientIsExact(op, a, b, d);
      FlagBits(min, minusOne);
      FlagBits(b == 0, min && minusOne);
      SignedDivisionIsSafe(EvalBin, op, x, y, vals, a, b, d, q, min, minusOne);
    }
  }

  /** Every arithmetic instruction's expression has the value the interpreter computes. */
  lemma AluIsExact(op: AluOp, x: Expr, y: Expr, vals: seq<Word>, a: Word, b: Word)
    requires Eval(EvalBin, x, vals) == Some(a) && Eval(EvalBin, y, vals) == Some(b)
    ensures Eval(EvalBin, EmitAlu(op, x, y), vals) == Some(Arith.Alu(op, a, b))
  {
    match op {
      case Div => DivisionIsSafe(op, x, y, vals, a, b);
      case Mod => DivisionIsSafe(op, x, y, vals, a, b);
      case Divu => DivisionIsSafe(op, x, y, vals, a, b);
      case Sll => ShiftIsExact(op, x, y, vals, a, b);
      case Sla => ShiftIsExact(op, x, y, vals, a, b);
      case Srl => ShiftIsExact(op, x, y, vals, a, b);
      case Sra => ShiftIsExact(op, x, y, vals, a, b);
      case _ =>
    }
  }

  lemma ShiftIsExact(op: AluOp, x: Expr, y: Expr, vals: seq<Word>, a: Word, b: Word)
    requires op == Sll || op == Sla || op == Srl || op == Sra
    requires Eval(EvalBin, x, vals) == Some(a) && Eval(EvalBin, y, vals) == Some(b)
    ensures Eval(EvalBin, EmitAlu(op, x, y), vals) == Some(Arith.Alu(op, a, b))
  {
    hide Eval, Arith.And, Arith.BitAnd, Arith.Pow2, Arith.Raised, Arith.Lowered;
    var shift := if op == Srl then Ushr else if op == Sra then Sshr else Ishl;
    Arith.ShiftMask(b);
    assert EvalBin(shift, a, b % 32) == Some(Arith.Alu(op, a, b));
    MaskedShift(EvalBin, shift, x, y, vals, a, b);
  }

  lemma MaskedShift(sem: Semantics, shift: BinOp, x: Expr, y: Expr, vals: seq<Word>, a: Word, b: Word)
    requires Eval(sem, x, vals) == Some(a) && Eval(sem, y, vals) == Some(b) && sem(Band, b, 31) == Some(b % 32)
    ensures Eval(sem, Bin(shift, x, Bin(Band, y, Const(31))), vals) == sem(shift, a, b % 32)
  {
    EvalOp(sem, Band, y, Const(31), vals, b, 31);
    EvalOp(sem, shift, x, Bin(Band, y, Const(31)), vals, a, b % 32);
  }

  // ---- statements ----

  lemma RunLoad(sem: Semantics, reg: Regs, r: Reg, vals: seq<Word>, stmts: seq<Stmt>)
    requires stmts != [] && stmts[0] == LoadOf(r)
    ensures Exec(sem, stmts, Machine(vals, reg)) == Exec(sem, stmts[1..], Machine(vals + [ReadReg(reg, r)], reg))
  {
  }

  lemma RunLoads(sem: Semantics, reg: Regs, r1: Reg, r2: Reg, rest: seq<Stmt>)
    ensures Exec(sem, [LoadOf(r1), LoadOf(r2)] + rest, Machine([], reg))
         == Exec(sem, rest, Machine([ReadReg(reg, r1), ReadReg(reg, r2)], reg))
  {
    var v1, v2 := ReadReg(reg, r1), ReadReg(reg, r2);
    var stmts := [LoadOf(r1), LoadOf(r2)] + rest;
    RunLoad(sem, reg, r1, [], stmts);
    RunLoad(sem, reg, r2, [v1], stmts[1..]);
    assert stmts[1..][1..] == rest && [v1] + [v2] == [v1, v2] && [] + [v1] == [v1];
  }

  lemma RunOneLoad(sem: Semantics, reg: Regs, r: Reg, rest: seq<Stmt>)
    ensures Exec(sem, [LoadOf(r)] + rest, Machine([], reg)) == Exec(sem, rest, Machine([ReadReg(reg, r)], reg))
  {
    RunLoad(sem, reg, r, [], [LoadOf(r)] + rest);
    assert ([LoadOf(r)] + rest)[1..] == rest && [] + [ReadReg(reg, r)] == [ReadReg(reg, r)];
  }

  lemma RunStore(sem: Semantics, m: Machine, r: Reg, e: Expr, v: Word)
    requires Eval(sem, e, m.vals) == Some(v)
    ensures Exec(sem, StoreOf(r, e), m) == Some(m.(reg := SetReg(m.reg, r, v)))
  {
    if r != 0 {
      assert StoreOf(r, e)[1..] == [];
    }
  }
}
