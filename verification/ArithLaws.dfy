/** What the arithmetic instructions mean for the numbers and the bits that words stand for. */
module ArithLaws {
  import opened Isa
  import opened Numbers
  import opened Arith

  // ---- signed numbers ----

  /** `Signed` is the number between -2^31 and 2^31 - 1 that is congruent to the word. */
  lemma SignedIsTwosComplement(w: Word, i: int)
    ensures Signed(w) == i <==> -0x8000_0000 <= i < 0x8000_0000 && (i - w) % 0x1_0000_0000 == 0
  {
  }

  lemma WrapKeeps(i: int)
    requires -0x8000_0000 <= i < 0x8000_0000
    ensures Signed(Wrap(i)) == i
  {
  }

  /** Addition and subtraction undo each other. */
  lemma SubUndoesAdd(a: Word, b: Word)
    ensures Arith.Alu(Sub, Arith.Alu(Add, a, b), b) == a && Arith.Alu(Add, Arith.Alu(Sub, a, b), b) == a
    ensures Arith.Alu(Add, a, 0) == a && Arith.Alu(Add, a, b) == Arith.Alu(Add, b, a)
  {
  }

  lemma Comparisons(a: Word, b: Word)
    ensures Arith.Alu(Slt, a, b) == if Signed(a) < Signed(b) then 1 else 0
    ensures Arith.Alu(Sltu, a, b) == if a < b then 1 else 0
    ensures Arith.Alu(Slt, a, b) == Arith.Alu(Sltu, Arith.Alu(Add, a, 0x8000_0000), Arith.Alu(Add, b, 0x8000_0000))
  {
  }

  // ---- multiplication and division ----

  /** MUL and MULH are the two halves of the signed product. */
  lemma ProductHalves(a: Word, b: Word)
    ensures Signed(Arith.Alu(Mulh, a, b)) * 0x1_0000_0000 + Arith.Alu(Mul, a, b) == Signed(a) * Signed(b)
  {
    hide Signed, Wrap;
    var x, y, m, n := SignedProduct(a, b);
    ProductFits(x, y);
    SameLowHalf(a, b, x, y, m, n);
    WrapKeeps(x * y / 0x1_0000_0000);
    LowHalf(a * b, x * y, m * b + n * a - m * n * 0x1_0000_0000);
  }

  lemma SignedProduct(a: Word, b: Word) returns (x: int, y: int, m: int, n: int)
    ensures x == Signed(a) && y == Signed(b) && a == x + m * 0x1_0000_0000 && b == y + n * 0x1_0000_0000
    ensures -0x8000_0000 <= x < 0x8000_0000 && -0x8000_0000 <= y < 0x8000_0000
  {
    x, y := Signed(a), Signed(b);
    m, n := if x < 0 then 1 else 0, if y < 0 then 1 else 0;
  }

  lemma ProductFits(x: int, y: int)
    requires -0x8000_0000 <= x < 0x8000_0000 && -0x8000_0000 <= y < 0x8000_0000
    ensures -0x8000_0000 <= x * y / 0x1_0000_0000 < 0x8000_0000
  {
    Signs(Abs(x), Abs(y));
    Monotone(Abs(x), Abs(y), 0x8000_0000);
    assert x * y == Abs(x) * Abs(y) || x * y == -(Abs(x) * Abs(y));
  }

  lemma Monotone(x: nat, y: nat, m: nat)
    requires x <= m && y <= m
    ensures 0 <= x * y <= m * m
  {
    assert x * (m - y) >= 0 && (m - x) * m >= 0;
    assert x * (m - y) == x * m - x * y;
  }

  lemma SameLowHalf(a: Word, b: Word, x: int, y: int, m: int, n: int)
    requires a == x + m * 0x1_0000_0000 && b == y + n * 0x1_0000_0000
    ensures a * b == x * y + (m * b + n * a - m * n * 0x1_0000_0000) * 0x1_0000_0000
  {
    calc {
      x * y;
    ==
      (a - m * 0x1_0000_0000) * (b - n * 0x1_0000_0000);
    ==
      a * (b - n * 0x1_0000_0000) - m * 0x1_0000_0000 * (b - n * 0x1_0000_0000);
    ==
      a * b - a * n * 0x1_0000_0000 - m * 0x1_0000_0000 * b + m * 0x1_0000_0000 * (n * 0x1_0000_0000);
    }
  }

  lemma LowHalf(p: int, q: int, k: int)
    requires p == q + k * 0x1_0000_0000
    ensures q / 0x1_0000_0000 * 0x1_0000_0000 + Wrap(p) == q
  {
  }

  /** DIV and MOD, but for division by 0 and the quotient that does not fit: dividend = quotient * divisor
      + remainder, where the remainder is smaller than the divisor and has the dividend's sign. */
  lemma DivisionTruncates(a: Word, b: Word)
    requires b != 0 && !(a == 0x8000_0000 && b == 0xFFFF_FFFF)
    ensures var x, y, q, r := Signed(a), Signed(b), Signed(Arith.Alu(Div, a, b)), Signed(Arith.Alu(Mod, a, b));
            && q * y + r == x
            && (if y < 0 then y < r < -y else -y < r < y)
            && (r == 0 || (r < 0 <==> x < 0))
  {
    hide Signed;
    var x, y := Signed(a), Signed(b);
    SignedIsTwosComplement(a, x);
    SignedIsTwosComplement(b, y);
    TruncatedParts(x, y);
    WrapKeeps(TruncDiv(x, y));
    WrapKeeps(TruncMod(x, y));
  }

  lemma TruncatedParts(x: int, y: int)
    requires -0x8000_0000 <= x < 0x8000_0000 && -0x8000_0000 <= y < 0x8000_0000 && y != 0 && !(x == -0x8000_0000 && y == -1)
    ensures var q, r := TruncDiv(x, y), TruncMod(x, y);
            && q * y + r == x
            && (if y < 0 then y < r < -y else -y < r < y)
            && (r == 0 || (r < 0 <==> x < 0))
            && -0x8000_0000 <= q < 0x8000_0000
  {
    var q, r := Division(Abs(x), Abs(y));
    QuotientBound(Abs(x), Abs(y), q, r);
    Signs(q, Abs(y));
  }

  lemma QuotientBound(n: nat, m: nat, q: nat, r: nat)
    requires m > 0 && n == q * m + r
    ensures q <= n && (m > 1 && n > 0 ==> q < n)
  {
    if m > 1 {
      assert q * m >= q * 2;
    } else {
      assert q * m == q;
    }
  }

  lemma Signs(q: int, m: int)
    ensures (-q) * m == -(q * m) && q * (-m) == -(q * m) && (-q) * (-m) == q * m
  {
  }

  /** The results the instruction set fixes for them, and unsigned division. */
  lemma SpecialQuotients(a: Word, b: Word)
    ensures Arith.Alu(Div, a, 0) == 0 && Arith.Alu(Mod, a, 0) == 0 && Arith.Alu(Divu, a, 0) == 0
    ensures Arith.Alu(Div, 0x8000_0000, 0xFFFF_FFFF) == 0x8000_0000 && Arith.Alu(Mod, 0x8000_0000, 0xFFFF_FFFF) == 0
    ensures b != 0 ==> 0 <= a - Arith.Alu(Divu, a, b) * b < b
  {
  }

  // ---- bits ----

  predicate BitAt(x: nat, k: nat) {
    x / Pow2(k) % 2 == 1
  }

  lemma NextBit(x: nat, k: nat)
    ensures BitAt(x, k + 1) == BitAt(x / 2, k)
  {
    assert Pow2(k + 1) == 2 * Pow2(k);
    DivDiv(x, Pow2(k));
  }

  lemma FirstBit(x: nat)
    ensures BitAt(x, 0) == (x % 2 == 1)
  {
  }

  /** AND, OR and XOR work bit by bit. */
  lemma {:induction false} BitwiseParts(a: nat, b: nat, k: nat)
    ensures BitAt(BitAnd(a, b), k) == (BitAt(a, k) && BitAt(b, k))
    ensures BitAt(BitOr(a, b), k) == (BitAt(a, k) || BitAt(b, k))
    ensures BitAt(BitXor(a, b), k) == (BitAt(a, k) != BitAt(b, k))
    decreases k
  {
    hide BitAt, BitAnd, BitOr, BitXor;
    Halves(a, b);
    if k == 0 {
      FirstBit(a);
      FirstBit(b);
      FirstBit(BitAnd(a, b));
      FirstBit(BitOr(a, b));
      FirstBit(BitXor(a, b));
    } else {
      BitwiseParts(a / 2, b / 2, k - 1);
      NextBit(a, k - 1);
      NextBit(b, k - 1);
      NextBit(BitAnd(a, b), k - 1);
      NextBit(BitOr(a, b), k - 1);
      NextBit(BitXor(a, b), k - 1);
    }
  }

  lemma {:induction false} Shared(a: nat, b: nat)
    ensures 2 * BitAnd(a, b) <= a + b
    decreases a
  {
    if a == 0 || b == 0 {
    } else {
      Shared(a / 2, b / 2);
    }
  }

  lemma Halves(a: nat, b: nat)
    ensures BitAnd(a, b) / 2 == BitAnd(a / 2, b / 2) && (BitAnd(a, b) % 2 == 1 <==> a % 2 == 1 && b % 2 == 1)
    ensures BitOr(a, b) / 2 == BitOr(a / 2, b / 2) && (BitOr(a, b) % 2 == 1 <==> a % 2 == 1 || b % 2 == 1)
    ensures 2 * BitAnd(a, b) <= a + b
    ensures BitXor(a, b) / 2 == BitXor(a / 2, b / 2) && (BitXor(a, b) % 2 == 1 <==> a % 2 != b % 2)
  {
    Shared(a, b);
    AndHalves(a, b);
    hide BitAnd;
    TwoParts(a / 2, a % 2, b / 2, b % 2, BitAnd(a / 2, b / 2));
  }

  lemma AndHalves(a: nat, b: nat)
    ensures BitAnd(a, b) == 2 * BitAnd(a / 2, b / 2) + if a % 2 == 1 && b % 2 == 1 then 1 else 0
  {
    if a == 0 || b == 0 {
      assert BitAnd(a / 2, b / 2) == 0;
    }
  }

  lemma TwoParts(a: nat, x: nat, b: nat, y: nat, c: nat)
    requires x < 2 && y < 2 && c <= a && c <= b
    ensures var n, d := 2 * a + x + (2 * b + y), 2 * c + if x == 1 && y == 1 then 1 else 0;
            && n >= 2 * d
            && (n - d) / 2 == a + b - c && ((n - d) % 2 == 1 <==> x == 1 || y == 1)
            && (n - 2 * d) / 2 == a + b - 2 * c && ((n - 2 * d) % 2 == 1 <==> x != y)
  {
    var e := if x == 1 && y == 1 then 1 else 0;
    Quotient(2 * a + x + (2 * b + y) - (2 * c + e), 2, a + b - c, x + y - e);
    Quotient(2 * a + x + (2 * b + y) - 2 * (2 * c + e), 2, a + b - 2 * c, x + y - 2 * e);
  }

  /** The logic instructions on the bits of words. */
  lemma LogicBits(a: Word, b: Word, k: nat)
    ensures BitAt(Arith.Alu(AluOp.And, a, b), k) == (BitAt(a, k) && BitAt(b, k))
    ensures BitAt(Arith.Alu(AluOp.Or, a, b), k) == (BitAt(a, k) || BitAt(b, k))
    ensures BitAt(Arith.Alu(AluOp.Xor, a, b), k) == (BitAt(a, k) != BitAt(b, k))
  {
    hide BitAt, BitAnd, BitOr, BitXor;
    BitsFit(a, b);
    BitwiseParts(a, b, k);
  }

  lemma {:induction false} RaisedBit(m: nat, n: nat, k: nat)
    ensures BitAt(Raised(m, n), k) == (n <= k && BitAt(m, k - n))
    decreases n
  {
    if n == 0 {
    } else {
      hide BitAt;
      FirstBit(Raised(m, n));
      if k > 0 {
        RaisedBit(m, n - 1, k - 1);
        NextBit(Raised(m, n), k - 1);
      }
    }
  }

  lemma {:induction false} LoweredBit(x: nat, n: nat, k: nat)
    ensures BitAt(Lowered(x, n), k) == BitAt(x, k + n)
    decreases n
  {
    if n == 0 {
    } else {
      hide BitAt;
      LoweredBit(x / 2, n - 1, k);
      NextBit(x, k + n - 1);
    }
  }

  /** The low `m` bits of a number are its bits. */
  lemma {:induction false} ModuloBit(x: nat, m: nat, k: nat)
    requires k < m
    ensures BitAt(x % Pow2(m), k) == BitAt(x, k)
    decreases m
  {
    hide BitAt;
    HalfModulo(x, Pow2(m - 1));
    FirstBit(x);
    FirstBit(x % Pow2(m));
    if k > 0 {
      ModuloBit(x / 2, m - 1, k - 1);
      NextBit(x, k - 1);
      NextBit(x % Pow2(m), k - 1);
    }
  }

  /** A number below 2^m has no bits from m on. */
  lemma {:induction false} NoBit(x: nat, m: nat, k: nat)
    requires x < Pow2(m) && m <= k
    ensures !BitAt(x, k)
    decreases m
  {
    if m == 0 {
      assert x == 0;
    } else {
      hide BitAt;
      NoBit(x / 2, m - 1, k - 1);
      NextBit(x, k - 1);
    }
  }

  /** 2^m - 1 - x has the opposite bits. */
  lemma {:induction false} OppositeBit(x: nat, m: nat, k: nat)
    requires x < Pow2(m) && k < m
    ensures BitAt(Pow2(m) - 1 - x, k) == !BitAt(x, k)
    decreases m
  {
    hide BitAt;
    var y := Pow2(m) - 1 - x;
    FirstBit(x);
    FirstBit(y);
    if k > 0 {
      assert y / 2 == Pow2(m - 1) - 1 - x / 2;
      OppositeBit(x / 2, m - 1, k - 1);
      NextBit(x, k - 1);
      NextBit(y, k - 1);
    }
  }

  /** Shifts move bits by the low five bits of the distance; SRA fills with the sign bit. */
  lemma ShiftBits(a: Word, b: Word, k: nat)
    requires k < 32
    ensures BitAt(Arith.Alu(Sll, a, b), k) == (b % 32 <= k && BitAt(a, k - b % 32))
    ensures BitAt(Arith.Alu(Srl, a, b), k) == BitAt(a, k + b % 32)
    ensures BitAt(Arith.Alu(Sra, a, b), k) == BitAt(a, if k + b % 32 < 32 then k + b % 32 else 31)
    ensures Arith.Alu(Sla, a, b) == Arith.Alu(Sll, a, b)
  {
    hide BitAt, Pow2, Raised, Lowered, ShiftRightSigned;
    var n := b % 32;
    Pow2Values(32);
    RaisedBit(a, n, k);
    ModuloBit(Raised(a, n), 32, k);
    LoweredBit(a, n, k);
    SignedShiftBit(a, n, k);
  }

  lemma SignedShiftBit(a: Word, n: nat, k: nat)
    requires n < 32 && k < 32
    ensures BitAt(ShiftRightSigned(a, n), k) == BitAt(a, if k + n < 32 then k + n else 31)
  {
    hide BitAt, Pow2, Lowered;
    Pow2Values(32);
    SignBit(a);
    if a < 0x8000_0000 {
      LoweredIs(a, n);
      LoweredBit(a, n, k);
      if k + n >= 32 {
        NoBit(a, 32, k + n);
      }
    } else {
      var c: Word := 0xFFFF_FFFF - a;
      NegativeShift(c, Pow2(n));
      LoweredIs(c, n);
      OppositeBit(Lowered(c, n), 32, k);
      LoweredBit(c, n, k);
      if k + n < 32 {
        OppositeBit(c, 32, k + n);
      } else {
        NoBit(c, 32, k + n);
      }
    }
  }

  lemma NegativeShift(c: nat, p: nat)
    requires p > 0 && c < 0x8000_0000
    ensures (-(c + 1)) / p == -(c / p) - 1 && c / p <= c
    ensures Wrap(-(c / p) - 1) == 0xFFFF_FFFF - c / p
  {
    var q, r := Division(c, p);
    QuotientBound(c, p, q, r);
    NegativeQuotient(c, p, q, r);
    OneBelow(q);
  }

  lemma NegativeQuotient(c: nat, p: nat, q: int, r: nat)
    requires p > 0 && c == q * p + r && r < p
    ensures (-(c + 1)) / p == -q - 1
  {
    Signs(q, p);
    assert -(c + 1) == (-q - 1) * p + (p - 1 - r);
    Floor(-(c + 1), p, -q - 1, p - 1 - r);
  }

  lemma Floor(n: int, p: nat, q: int, r: nat)
    requires r < p && n == q * p + r
    ensures n / p == q
  {
    assert (n / p - q) * p == r - n % p;
    SmallMultiple(n / p - q, p);
  }

  lemma OneBelow(q: int)
    requires 0 <= q < 0x8000_0000
    ensures Wrap(-q - 1) == 0xFFFF_FFFF - q
  {
  }

  lemma SignBit(a: Word)
    ensures BitAt(a, 31) <==> a >= 0x8000_0000
  {
    hide Pow2;
    TopPower();
  }

  lemma TopPower()
    ensures Pow2(31) == 0x8000_0000
  {
    Pow2Values(32);
    assert Pow2(31 + 1) == 2 * Pow2(31);
  }

  /** Words with the same bits are the same. */
  lemma {:induction false} BitsDetermine(x: nat, y: nat, m: nat)
    requires x < Pow2(m) && y < Pow2(m) && forall k :: 0 <= k < m ==> BitAt(x, k) == BitAt(y, k)
    ensures x == y
    decreases m
  {
    if m == 0 {
    } else {
      hide BitAt;
      FirstBit(x);
      FirstBit(y);
      assert BitAt(x, 0) == BitAt(y, 0);
      forall k | 0 <= k < m - 1 ensures BitAt(x / 2, k) == BitAt(y / 2, k) {
        NextBit(x, k);
        NextBit(y, k);
        assert BitAt(x, k + 1) == BitAt(y, k + 1);
      }
      BitsDetermine(x / 2, y / 2, m - 1);
    }
  }
}
