/** System registers by their numbers: what MFSR reads after MTSR, and that they do not disturb each other. */
module SystemRegisters {
  import opened Isa
  import opened Wrappers
  import opened Numbers
  import opened Tlb
  import opened Privilege
  import PageTables

  /** STATUS, EPC, CAUSE; USP, UFP, UGP; start, end and flags of the eight regions; VCTL, PTBR, VFAULT, TLBFLUSH,
      TLBINV. */
  predicate Numbered(n: Half) {
    n <= 2 || 8 <= n <= 10 || (0x10 <= n < 0x30 && n % 4 != 3) || 0x40 <= n <= 0x44
  }

  /** What register `n` holds after `v` has been written to it. STATUS keeps its user bit, flags have three bits,
      VCTL one, a table root begins a page, and the two commands read as zero. */
  function Held(user: bool, n: Half, v: Word): nat {
    if n == 0 then v % 4 + (if user then 4 else 0) + v / 8 % 4 * 8
    else if n == 0x40 then v % 2
    else if n == 0x41 then v / 0x1000 * 0x1000
    else if n == 0x43 || n == 0x44 then 0
    else if 0x10 <= n < 0x30 && n % 4 == 2 then v % 8
    else v
  }

  lemma NumbersAreRegisters(n: Half)
    ensures SrOf(n).Some? <==> Numbered(n)
  {
  }

  lemma LowFlags(v: Word)
    ensures Flag(Bit(v, 0), 1) == v % 2
    ensures Flag(Bit(v, 0), 1) + Flag(Bit(v, 1), 2) == v % 4
    ensures Flag(Bit(v, 0), 1) + Flag(Bit(v, 1), 2) + Flag(Bit(v, 2), 4) == v % 8
    ensures Flag(Bit(v, 3), 8) + Flag(Bit(v, 4), 16) == v / 8 % 4 * 8
  {
    hide Bit;
    PageTables.BitIs(v);
    LowDigits(v);
    LowDigits(v / 8);
    Sixteenth(v);
  }

  lemma Sixteenth(v: Word)
    ensures v / 8 / 2 == v / 0x10
  {
  }

  /** Numbers are distinct. */
  lemma NumberOf(n: Half, sr: Sr)
    requires SrOf(n) == Some(sr)
    ensures n == match sr
                 case Status => 0
                 case Epc => 1
                 case Cause => 2
                 case UserBank(k) => 8 + k
                 case Vctl => 0x40
                 case Ptbr => 0x41
                 case Vfault => 0x42
                 case TlbFlush => 0x43
                 case TlbInv => 0x44
                 case RegionField(k, field) => 0x10 + 4 * k + field
  {
  }

  lemma KnownIsRead(s: System, reg: Regs, n: Half, sr: Sr, v: Word)
    requires Shaped(s.vm) && ValidSr(sr) && SrOf(n) == Some(sr)
    ensures var (t, q) := WriteKnown(s, reg, sr, v); ReadKnown(t, q, sr) == Held(s.user, n, v)
  {
    hide SrOf, Bit;
    NumberOf(n, sr);
    match sr {
      case Status => LowFlags(v);
      case Vctl => LowFlags(v);
      case Ptbr => PageStart(v);
      case RegionField(k, field) =>
        if field == 2 {
          LowFlags(v);
        }
      case _ =>
    }
  }

  lemma KnownKeeps(s: System, reg: Regs, sr: Sr, v: Word, other: Sr)
    requires Shaped(s.vm) && ValidSr(sr) && ValidSr(other) && sr != other
    ensures var (t, q) := WriteKnown(s, reg, sr, v); ReadKnown(t, q, other) == ReadKnown(s, reg, other)
  {
    hide Bit, SetRegion, WriteVm;
    if OfTranslation(sr) {
      VmKeeps(s, reg, sr, v, other);
    } else if sr.RegionField? {
      RegionKeeps(s.regions[sr.n], sr.field, v);
    }
  }

  lemma VmKeeps(s: System, reg: Regs, sr: Sr, v: Word, other: Sr)
    requires Shaped(s.vm) && OfTranslation(sr) && ValidSr(other) && sr != other
    ensures ReadKnown(s.(vm := WriteVm(s.vm, sr, v)), reg, other) == ReadKnown(s, reg, other)
  {
    hide Bit, RegionFlags, Flag;
  }

  lemma RegionKeeps(r: Region, field: nat, v: Word)
    ensures var q := SetRegion(r, field, v);
            && (field != 0 ==> q.start == r.start) && (field != 1 ==> q.end == r.end)
            && (field <= 1 ==> RegionFlags(q) == RegionFlags(r))
  {
    hide Bit;
  }

  /** MFSR reads what MTSR wrote, and both know exactly the numbered registers. */
  lemma WrittenIsRead(s: System, reg: Regs, n: Half, v: Word)
    requires Shaped(s.vm)
    ensures ReadSr(s, reg, n).Some? <==> Numbered(n)
    ensures WriteSr(s, reg, n, v).Some? <==> Numbered(n)
    ensures Numbered(n) ==> var (t, q) := WriteSr(s, reg, n, v).value; ReadSr(t, q, n) == Some(Held(s.user, n, v))
  {
    hide SrOf, ReadKnown, WriteKnown, Held;
    NumbersAreRegisters(n);
    if Numbered(n) {
      KnownIsRead(s, reg, n, SrOf(n).value, v);
    }
  }

  lemma PageStart(v: Word)
    ensures v - v % PAGE == v / 0x1000 * 0x1000
  {
  }

  /** And nothing else changes for MFSR. */
  lemma OthersKeep(s: System, reg: Regs, n: Half, v: Word, m: Half)
    requires Shaped(s.vm) && Numbered(n) && m != n
    ensures WriteSr(s, reg, n, v).Some?
    ensures var (t, q) := WriteSr(s, reg, n, v).value; ReadSr(t, q, m) == ReadSr(s, reg, m)
  {
    hide SrOf, ReadKnown, WriteKnown;
    NumbersAreRegisters(n);
    NumbersAreRegisters(m);
    if Numbered(m) {
      NumberOf(n, SrOf(n).value);
      NumberOf(m, SrOf(m).value);
      KnownKeeps(s, reg, SrOf(n).value, v, SrOf(m).value);
    }
  }

  /** USP, UFP and UGP name the user's R28 to R30 in either mode. */
  lemma UserBankIsUsers(s: System, reg: Regs, k: nat)
    requires k < 3
    ensures ReadSr(s, reg, 8 + k) == Some(if s.user then reg[28 + k] else s.other[k])
    ensures ReadSr(s, reg, 8 + k) == Some(Abstract(s, reg).user[k])
  {
  }
}
