/** 32-bit arithmetic as the interpreter performs it, on words as unsigned numbers. */
module Arith {
  import opened Isa
  import opened Numbers

  const LIMIT: int := 0x1_0000_0000
  const MIN_WORD: Word := 0x8000_0000

  function Wrap(i: int): Word {
    i % 0x1_0000_0000
  }

  function Signed(w: Word): int {
    if w < 0x8000_0000 then w else w - 0x1_0000_0000
  }

  function Pow2(n: nat): (p: nat)
    ensures p > 0
  {
    if n == 0 then 1 else 2 * Pow2(n - 1)
  }

  function BitAnd(a: nat, b: nat): (r: nat)
    ensures r <= a && r <= b
    decreases a + b
  {
    if a == 0 || b == 0 then 0 else (if a % 2 == 1 && b % 2 == 1 then 1 else 0) + 2 * BitAnd(a / 2, b / 2)
  }

  /** a | b and a ^ b, by the bits that a and b share. */
  function BitOr(a: nat, b: nat): nat {
    a + b - BitAnd(a, b)
  }

  function BitXor(a: nat, b: nat): nat {
    a + b - 2 * BitAnd(a, b)
  }

  lemma {:induction false} SharedBits(a: nat, b: nat, n: nat)
    requires a < Pow2(n) && b < Pow2(n)
    ensures a + b - BitAnd(a, b) < Pow2(n)
    ensures 2 * BitAnd(a, b) <= a + b
    decreases n
  {
    if a == 0 || b == 0 {
    } else {
      SharedBits(a / 2, b / 2, n - 1);
    }
  }

  lemma Pow2Values(n: nat)
    requires n == 32 || n == 16 || n == 5
    ensures n == 32 ==> Pow2(n) == 0x1_0000_0000
    ensures n == 16 ==> Pow2(n) == 0x1_0000
    ensures n == 5 ==> Pow2(n) == 32
  {
    assert Pow2(1) == 2 && Pow2(2) == 4 && Pow2(3) == 8 && Pow2(4) == 16 && Pow2(5) == 32;
    assert Pow2(6) == 64 && Pow2(7) == 128 && Pow2(8) == 0x100 && Pow2(9) == 0x200 && Pow2(10) == 0x400;
    assert Pow2(11) == 0x800 && Pow2(12) == 0x1000 && Pow2(13) == 0x2000 && Pow2(14) == 0x4000 && Pow2(15) == 0x8000;
    assert Pow2(16) == 0x1_0000 && Pow2(17) == 0x2_0000 && Pow2(18) == 0x4_0000 && Pow2(19) == 0x8_0000;
    assert Pow2(20) == 0x10_0000 && Pow2(21) == 0x20_0000 && Pow2(22) == 0x40_0000 && Pow2(23) == 0x80_0000;
    assert Pow2(24) == 0x100_0000 && Pow2(25) == 0x200_0000 && Pow2(26) == 0x400_0000 && Pow2(27) == 0x800_0000;
    assert Pow2(28) == 0x1000_0000 && Pow2(29) == 0x2000_0000 && Pow2(30) == 0x4000_0000 && Pow2(31) == 0x8000_0000;
  }

  function And(a: Word, b: Word): Word { BitAnd(a, b) }

  function Or(a: Word, b: Word): Word { Wrap(BitOr(a, b)) }

  function Xor(a: Word, b: Word): Word { Wrap(BitXor(a, b)) }

  /** The results fit a word, so nothing is lost. */
  lemma BitsFit(a: Word, b: Word)
    ensures Or(a, b) == BitOr(a, b) && Xor(a, b) == BitXor(a, b)
  {
    Pow2Values(32);
    SharedBits(a, b, 32);
  }

  // ---- masks ----

  lemma HalfModulo(x: nat, p: nat)
    requires p > 0
    ensures x % (2 * p) == x % 2 + 2 * ((x / 2) % p)
  {
    var h, q := x / 2, (x / 2) / p;
    assert h == q * p + h % p;
    assert x == q * (2 * p) + (x % 2 + 2 * (h % p));
    Quotient(x, 2 * p, q, x % 2 + 2 * (h % p));
  }

  lemma MaskStep(x: nat, p: nat)
    requires x > 0 && p > 0
    ensures BitAnd(x, 2 * p - 1) == x % 2 + 2 * BitAnd(x / 2, p - 1)
  {
    assert (2 * p - 1) % 2 == 1 && (2 * p - 1) / 2 == p - 1;
  }

  /** Masking with n ones keeps the low n bits. */
  lemma {:induction false} MaskLow(x: nat, n: nat)
    ensures BitAnd(x, Pow2(n) - 1) == x % Pow2(n)
  {
    if n == 0 {
    } else if x == 0 {
    } else {
      hide BitAnd;
      MaskLow(x / 2, n - 1);
      MaskStep(x, Pow2(n - 1));
      HalfModulo(x, Pow2(n - 1));
    }
  }

  /** `m` shifted left, and `x` shifted right, by `n` bits. */
  function Raised(m: nat, n: nat): nat {
    if n == 0 then m else 2 * Raised(m, n - 1)
  }

  function Lowered(x: nat, n: nat): (r: nat)
    ensures r <= x
    decreases n
  {
    if n == 0 then x else Lowered(x / 2, n - 1)
  }

  lemma {:induction false} AndRaised(x: nat, m: nat, n: nat)
    ensures BitAnd(x, Raised(m, n)) == Raised(BitAnd(Lowered(x, n), m), n)
    decreases n
  {
    if n == 0 {
    } else {
      AndRaised(x / 2, m, n - 1);
      AndDoubled(x, Raised(m, n - 1));
    }
  }

  lemma AndDoubled(x: nat, y: nat)
    ensures BitAnd(x, 2 * y) == 2 * BitAnd(x / 2, y)
  {
    var z := 2 * y;
    assert z % 2 == 0 && z / 2 == y;
    if x == 0 || y == 0 {
    } else {
      assert BitAnd(x, z) == 2 * BitAnd(x / 2, z / 2);
    }
  }

  lemma HalfShifts(x: nat, m: nat, n: nat)
    requires n == 16
    ensures Raised(m, n) == m * 0x1_0000 && Lowered(x, n) == x / 0x1_0000
  {
    RaisedIs(m, n);
    LoweredIs(x, n);
    Pow2Values(n);
  }

  lemma {:induction false} RaisedIs(m: nat, n: nat)
    ensures Raised(m, n) == m * Pow2(n)
  {
    if n == 0 {
    } else {
      RaisedIs(m, n - 1);
      Reassociate(m, Pow2(n - 1));
    }
  }

  lemma {:induction false} LoweredIs(x: nat, n: nat)
    ensures Lowered(x, n) == x / Pow2(n)
    decreases n
  {
    if n == 0 {
    } else {
      LoweredIs(x / 2, n - 1);
      DivDiv(x, Pow2(n - 1));
    }
  }

  lemma Reassociate(a: nat, p: nat)
    ensures 2 * (a * p) == a * (2 * p)
  {
  }

  lemma DivDiv(x: nat, p: nat)
    requires p > 0
    ensures (x / 2) / p == x / (2 * p)
  {
    var h, q := x / 2, (x / 2) / p;
    assert h == q * p + h % p;
    assert x == q * (2 * p) + (x % 2 + 2 * (h % p));
    Quotient(x, 2 * p, q, x % 2 + 2 * (h % p));
  }

  /** The masks LDIL and LDIH are compiled to merge the halves of a word. */
  lemma MasksMerge(a: Word, half: Half)
    ensures Or(And(a, 0xFFFF_0000), half) == MergeLow(a, half)
    ensures Or(And(a, 0xFFFF), half * 0x1_0000) == MergeHigh(a, half)
  {
    hide BitAnd;
    LowHalf(a, 0xFFFF, 16);
    HighHalf(a, 0xFFFF, 0xFFFF_0000, 16);
    DisjointHalves(half, a / 0x1_0000);
    DisjointHalves(a % 0x1_0000, half);
    AndCommutes(a / 0x1_0000 * 0x1_0000, half);
  }

  lemma LowHalf(a: Word, mask: nat, n: nat)
    requires mask == 0xFFFF && n == 16
    ensures BitAnd(a, mask) == a % 0x1_0000
  {
    Pow2Values(n);
    MaskLow(a, n);
  }

  lemma HighHalf(a: Word, low: nat, mask: nat, n: nat)
    requires low == 0xFFFF && mask == 0xFFFF_0000 && n == 16
    ensures BitAnd(a, mask) == a / 0x1_0000 * 0x1_0000
  {
    var h := a / 0x1_0000;
    calc {
      BitAnd(a, mask);
    ==  { HalfShifts(a, low, n); }
      BitAnd(a, Raised(low, n));
    ==  { AndRaised(a, low, n); }
      Raised(BitAnd(Lowered(a, n), low), n);
    ==  { HalfShifts(a, low, n); }
      Raised(BitAnd(h, low), n);
    ==  { LowHalf(h, low, n); }
      Raised(h, n);
    ==  { HalfShifts(a, h, n); }
      h * 0x1_0000;
    }
  }

  lemma DisjointHalves(low: nat, high: nat)
    requires low < 0x1_0000
    ensures BitAnd(low, high * 0x1_0000) == 0
  {
    AndRaised(low, high, 16);
    HalfShifts(low, high, 16);
    HalfShifts(low, 0, 16);
  }

  lemma {:induction false} AndCommutes(a: nat, b: nat)
    ensures BitAnd(a, b) == BitAnd(b, a)
    decreases a + b
  {
    if a == 0 || b == 0 {
    } else {
      AndCommutes(a / 2, b / 2);
    }
  }

  lemma ShiftMask(b: Word)
    ensures And(b, 31) == b % 32
  {
    Pow2Values(5);
    MaskLow(b, 5);
  }

  // ---- the arithmetic unit ----

  function Abs(x: int): nat {
    if x < 0 then -x else x
  }

  /** Division that truncates toward zero, and its remainder. */
  function TruncDiv(x: int, y: int): int
    requires y != 0
  {
    if (x < 0) == (y < 0) then Abs(x) / Abs(y) else -(Abs(x) / Abs(y))
  }

  function TruncMod(x: int, y: int): int
    requires y != 0
  {
    if x < 0 then -(Abs(x) % Abs(y)) else x % Abs(y)
  }

  function SignedDiv(a: Word, b: Word): Word {
    if b == 0 then 0
    else if a == MIN_WORD && Signed(b) == -1 then MIN_WORD
    else Wrap(TruncDiv(Signed(a), Signed(b)))
  }

  function SignedMod(a: Word, b: Word): Word {
    if b == 0 then 0
    else if a == MIN_WORD && Signed(b) == -1 then 0
    else Wrap(TruncMod(Signed(a), Signed(b)))
  }

  /** Dividing by 1 instead of the two bad divisors gives the special results, but for x / 0. */
  lemma SafeDivisor(a: Word, b: Word, d: Word)
    requires d == if b == 0 || (a == MIN_WORD && b == 0xFFFF_FFFF) then 1 else b
    ensures Wrap(TruncMod(Signed(a), Signed(d))) == SignedMod(a, b)
    ensures b != 0 ==> Wrap(TruncDiv(Signed(a), Signed(d))) == SignedDiv(a, b)
  {
    if d == 1 {
      assert Signed(d) == 1 && Abs(1) == 1;
    }
  }

  function ShiftLeft(a: Word, n: nat): Word { Wrap(Raised(a, n)) }
  function ShiftRight(a: Word, n: nat): Word { Lowered(a, n) }
  function ShiftRightSigned(a: Word, n: nat): Word { Wrap(Signed(a) / Pow2(n)) }

  function Alu(op: AluOp, a: Word, b: Word): Word {
    match op
    case Add => Plus(a, b)
    case Sub => Wrap(a - b)
    case Slt => if Signed(a) < Signed(b) then 1 else 0
    case Sltu => if a < b then 1 else 0
    case And => And(a, b)
    case Or => Or(a, b)
    case Xor => Xor(a, b)
    case Sll => ShiftLeft(a, b % 32)
    case Sla => ShiftLeft(a, b % 32)
    case Srl => ShiftRight(a, b % 32)
    case Sra => ShiftRightSigned(a, b % 32)
    case Mul => Wrap(a * b)
    case Mulh => Wrap(Signed(a) * Signed(b) / 0x1_0000_0000)
    case Div => SignedDiv(a, b)
    case Mod => SignedMod(a, b)
    case Divu => if b == 0 then 0 else a / b
  }
}
