/**
 Loads and stores of user and supervisor code on byte-addressed memory: a load finds what a store left, most
 significant byte first, also across two pages that are mapped anywhere.
 */
module PagedMemory {
  import opened Isa
  import opened Wrappers
  import opened Bytes
  import opened Numbers
  import T = Tlb
  import opened PagedPlatform
  import P = Privilege

  type Ram = Word -> Byte

  /** The bus is plain memory; words are stored most significant byte first. */
  ghost predicate OnRam(x: Board<Ram>) {
    && (forall m: Ram, a: Word :: x.readByte(m, a) == (m(a), m))
    && (forall m: Ram, a: Word :: x.readWord(m, a)
          == (m(a) * 0x100_0000 + m(Plus(a, 1)) * 0x1_0000 + m(Plus(a, 2)) * 0x100 + m(Plus(a, 3)), m))
    && (forall m: Ram, a: Word, v: Byte, b: Word :: x.writeByte(m, a, v)(b) == if b == a then v else m(b))
    && (forall m: Ram, a: Word, v: Word, b: Word :: x.writeWord(m, a, v)(b)
          == if b == a then v / 0x100_0000 else if b == Plus(a, 1) then v / 0x1_0000 % 0x100
             else if b == Plus(a, 2) then v / 0x100 % 0x100 else if b == Plus(a, 3) then v % 0x100 else m(b))
  }

  /** The bytes of an access are at different places, and a word inside a page is in one piece. */
  ghost predicate Placed(s: P.System, at: Address, va: Word, width: Width) {
    && (forall j: nat, k: nat :: j < k < width ==> at(Plus(va, j)) != at(Plus(va, k)))
    && (InOneWord(s, va, width) ==> forall k: nat :: k < 4 ==> at(Plus(va, k)) == Plus(at(va), k))
  }

  /** Bytes of a number, most significant first. */
  function Digit(value: Word, width: Width, k: nat): Byte
    requires k < width
  {
    match width - 1 - k
    case 0 => value % 0x100
    case 1 => value / 0x100 % 0x100
    case 2 => value / 0x1_0000 % 0x100
    case _ => value / 0x100_0000 % 0x100
  }

  /** The bytes of a number that an access of this width has room for. */
  function LowPart(value: Word, width: Width): Word {
    value % (if width == 1 then 0x100 else if width == 2 then 0x1_0000 else 0x1_0000_0000)
  }

  // ---- byte by byte ----

  lemma {:induction false} BytesWritten(x: Board<Ram>, m: Ram, at: Address, va: Word, width: Width, value: Word, n: nat, b: Word)
    requires OnRam(x) && n <= width && forall j: nat, k: nat :: j < k < width ==> at(Plus(va, j)) != at(Plus(va, k))
    ensures forall k: nat :: k < n ==> WriteBytes(x, m, at, va, width, value, n)(at(Plus(va, k))) == Digit(value, width, k)
    ensures (forall k: nat :: k < n ==> b != at(Plus(va, k))) ==> WriteBytes(x, m, at, va, width, value, n)(b) == m(b)
  {
    hide Digit, ByteOf, Plus, OnRam;
    if n == 0 {
    } else {
      BytesWritten(x, m, at, va, width, value, n - 1, b);
      DigitIs(value, width, n - 1);
      var before := WriteBytes(x, m, at, va, width, value, n - 1);
      ByteWritten(x, before, at(Plus(va, n - 1)), ByteOf(value, width, n - 1));
    }
  }

  lemma ByteWritten(x: Board<Ram>, m: Ram, a: Word, v: Byte)
    requires OnRam(x)
    ensures forall b: Word :: x.writeByte(m, a, v)(b) == if b == a then v else m(b)
  {
  }

  lemma DigitIs(value: Word, width: Width, k: nat)
    requires k < width
    ensures ByteOf(value, width, k) == Digit(value, width, k)
  {
  }

  function Number(m: Ram, at: Address, va: Word, n: nat): nat {
    if n == 0 then 0 else Number(m, at, va, n - 1) * 0x100 + m(at(Plus(va, n - 1)))
  }

  lemma {:induction false} BytesRead(x: Board<Ram>, m: Ram, at: Address, va: Word, n: nat)
    requires OnRam(x)
    ensures ReadBytes(x, m, at, va, n) == (Number(m, at, va, n), m)
  {
    if n == 0 {
    } else {
      BytesRead(x, m, at, va, n - 1);
    }
  }

  lemma WordWritten(x: Board<Ram>, m: Ram, a: Word, value: Word, b: Word)
    requires OnRam(x) && Plus(a, 1) != a && Plus(a, 2) != a && Plus(a, 3) != a
    requires Plus(a, 1) != Plus(a, 2) && Plus(a, 1) != Plus(a, 3) && Plus(a, 2) != Plus(a, 3)
    ensures var n := x.writeWord(m, a, value);
            && n(a) == Digit(value, 4, 0) && n(Plus(a, 1)) == Digit(value, 4, 1)
            && n(Plus(a, 2)) == Digit(value, 4, 2) && n(Plus(a, 3)) == Digit(value, 4, 3)
            && (b != a && b != Plus(a, 1) && b != Plus(a, 2) && b != Plus(a, 3) ==> n(b) == m(b))
  {
    hide Plus;
    SmallDigit(value);
  }

  lemma SmallDigit(value: Word)
    ensures value / 0x100_0000 < 0x100
  {
  }

  lemma FourPlaces(at: Address, va: Word)
    requires forall k: nat :: k < 4 ==> at(Plus(va, k)) == Plus(at(va), k)
    ensures at(Plus(va, 0)) == at(va) && at(Plus(va, 1)) == Plus(at(va), 1)
    ensures at(Plus(va, 2)) == Plus(at(va), 2) && at(Plus(va, 3)) == Plus(at(va), 3)
  {
    assert Plus(va, 0) == va;
  }

  /** A store leaves the digits of the value at the places of its bytes, and nothing else changes. */
  lemma StoreLeaves(x: Board<Ram>, m: Ram, s: P.System, at: Address, va: Word, width: Width, value: Word, b: Word)
    requires OnRam(x) && Placed(s, at, va, width)
    ensures var n := WriteData(x, m, s, at, va, width, value);
            && (forall k: nat :: k < width ==> n(at(Plus(va, k))) == Digit(value, width, k))
            && ((forall k: nat :: k < width ==> b != at(Plus(va, k))) ==> n(b) == m(b))
  {
    if InOneWord(s, va, width) {
      WordLeaves(x, m, s, at, va, value, b);
    } else {
      hide OnRam;
      BytesWritten(x, m, at, va, width, value, width, b);
    }
  }

  lemma WordLeaves(x: Board<Ram>, m: Ram, s: P.System, at: Address, va: Word, value: Word, b: Word)
    requires OnRam(x) && Placed(s, at, va, 4) && InOneWord(s, va, 4)
    ensures var n := x.writeWord(m, at(va), value);
            && (forall k: nat :: k < 4 ==> n(at(Plus(va, k))) == Digit(value, 4, k))
            && ((forall k: nat :: k < 4 ==> b != at(Plus(va, k))) ==> n(b) == m(b))
  {
    hide Plus, OnRam, Digit;
    var a := at(va);
    FourPlaces(at, va);
    assert at(Plus(va, 0)) != at(Plus(va, 1)) && at(Plus(va, 0)) != at(Plus(va, 2)) && at(Plus(va, 0)) != at(Plus(va, 3));
    assert at(Plus(va, 1)) != at(Plus(va, 2)) && at(Plus(va, 1)) != at(Plus(va, 3)) && at(Plus(va, 2)) != at(Plus(va, 3));
    WordWritten(x, m, a, value, b);
  }

  /** A load puts together the bytes at its places. */
  lemma LoadFinds(x: Board<Ram>, m: Ram, s: P.System, at: Address, va: Word, width: Width, value: Word)
    requires OnRam(x) && Placed(s, at, va, width) && forall k: nat :: k < width ==> m(at(Plus(va, k))) == Digit(value, width, k)
    ensures ReadData(x, m, s, at, va, width) == (LowPart(value, width), m)
  {
    hide Digit, Plus, OnRam, LowPart;
    NumberIs(m, at, va, width, value);
    if InOneWord(s, va, width) {
      FourPlaces(at, va);
      WordRead(x, m, at(va));
      FourBytes(m, at, va);
    } else {
      BytesRead(x, m, at, va, width);
    }
  }

  lemma WordRead(x: Board<Ram>, m: Ram, a: Word)
    requires OnRam(x)
    ensures x.readWord(m, a) == (m(a) * 0x100_0000 + m(Plus(a, 1)) * 0x1_0000 + m(Plus(a, 2)) * 0x100 + m(Plus(a, 3)), m)
  {
  }

  lemma NumberIs(m: Ram, at: Address, va: Word, width: Width, value: Word)
    requires forall k: nat :: k < width ==> m(at(Plus(va, k))) == Digit(value, width, k)
    ensures Number(m, at, va, width) == LowPart(value, width)
  {
    hide Digit, Plus, LowPart;
    DigitsMakeNumber(value);
    assert m(at(Plus(va, 0))) == Digit(value, width, 0);
    if width == 1 {
      assert Number(m, at, va, 0) == 0;
    } else {
      assert m(at(Plus(va, 1))) == Digit(value, width, 1);
      if width == 2 {
        TwoBytes(m, at, va);
      } else {
        FourBytes(m, at, va);
        assert m(at(Plus(va, 2))) == Digit(value, width, 2) && m(at(Plus(va, 3))) == Digit(value, width, 3);
      }
    }
  }

  lemma TwoBytes(m: Ram, at: Address, va: Word)
    ensures Number(m, at, va, 2) == m(at(Plus(va, 0))) * 0x100 + m(at(Plus(va, 1)))
  {
    hide Plus;
    assert Number(m, at, va, 1) == m(at(Plus(va, 0)));
  }

  lemma FourBytes(m: Ram, at: Address, va: Word)
    ensures Number(m, at, va, 4) == m(at(Plus(va, 0))) * 0x100_0000 + m(at(Plus(va, 1))) * 0x1_0000
                                    + m(at(Plus(va, 2))) * 0x100 + m(at(Plus(va, 3)))
  {
    hide Plus;
    TwoBytes(m, at, va);
    assert Number(m, at, va, 3) == Number(m, at, va, 2) * 0x100 + m(at(Plus(va, 2)));
  }

  lemma DigitsMakeNumber(value: Word)
    ensures Digit(value, 1, 0) == LowPart(value, 1)
    ensures Digit(value, 2, 0) * 0x100 + Digit(value, 2, 1) == LowPart(value, 2)
    ensures Digit(value, 4, 0) * 0x100_0000 + Digit(value, 4, 1) * 0x1_0000 + Digit(value, 4, 2) * 0x100 + Digit(value, 4, 3) == LowPart(value, 4)
  {
    BytesOf(value);
    BytesOf(value / 0x100);
    BytesOf(value / 0x1_0000);
    TopByte(value);
    LowHalf(value, value / 0x1_0000, value / 0x100 % 0x100, value % 0x100);
  }

  lemma BytesOf(n: Word)
    ensures n == n / 0x100 * 0x100 + n % 0x100
  {
  }

  lemma TopByte(n: Word)
    ensures n / 0x100 / 0x100 == n / 0x1_0000 && n / 0x1_0000 / 0x100 == n / 0x100_0000
    ensures n / 0x100_0000 % 0x100 == n / 0x100_0000
  {
  }

  lemma LowHalf(n: Word, high: nat, y: nat, x: nat)
    requires n == high * 0x1_0000 + y * 0x100 + x && y < 0x100 && x < 0x100
    ensures n % 0x1_0000 == y * 0x100 + x
  {
    Quotient(n, 0x1_0000, high, y * 0x100 + x);
  }

  /** What is stored is loaded. */
  lemma LoadAfterStore(x: Board<Ram>, m: Ram, s: P.System, at: Address, va: Word, width: Width, value: Word)
    requires OnRam(x) && Placed(s, at, va, width)
    ensures var n := WriteData(x, m, s, at, va, width, value);
            ReadData(x, n, s, at, va, width) == (LowPart(value, width), n)
  {
    hide *;
    StoreLeaves(x, m, s, at, va, width, value, 0);
    LoadFinds(x, WriteData(x, m, s, at, va, width, value), s, at, va, width, value);
  }

  // ---- through the page tables ----

  /** Translation keeps the offset in the page and moves whole pages. */
  lemma TruthIs(tables: T.Memory, s: P.System, va: Word)
    requires Translating(s)
    ensures var ppn := if T.Walk(s.vm.ptbr, T.PageOf(va), tables).Found? then T.Walk(s.vm.ptbr, T.PageOf(va), tables).entry.ppn else 0;
            Truth(tables, s, va) == ppn * 0x1000 + va % 0x1000
  {
  }

  lemma NextOffsets(va: Word, j: nat, k: nat)
    requires j < k < 4
    ensures Plus(va, j) != Plus(va, k) && Plus(va, j) % 0x1000 != Plus(va, k) % 0x1000
  {
    OffsetOf(va, j);
    OffsetOf(va, k);
  }

  lemma OffsetOf(va: Word, k: nat)
    requires k < 4
    ensures Plus(va, k) % 0x1000 == (va % 0x1000 + k) % 0x1000
    ensures Plus(va, k) == va + k || Plus(va, k) == va + k - 0x1_0000_0000
  {
  }

  lemma SamePageWord(va: Word, k: nat)
    requires k < 4 && va % 0x1000 <= 0xFFC
    ensures Plus(va, k) == va + k && T.PageOf(Plus(va, k)) == T.PageOf(va) && Plus(va, k) % 0x1000 == va % 0x1000 + k
  {
  }

  /** So the bytes of an access are at different places, wherever its pages are. */
  lemma TruthPlaces(x: Board<Ram>, s: P.System, va: Word, width: Width)
    ensures Placed(s, TrueAddress(x.tables)(s), va, width)
  {
    hide Plus, Truth, T.Walk;
    var at := TrueAddress(x.tables)(s);
    forall j: nat, k: nat | j < k < width ensures at(Plus(va, j)) != at(Plus(va, k)) {
      NextOffsets(va, j, k);
      if Translating(s) {
        TruthIs(x.tables, s, Plus(va, j));
        TruthIs(x.tables, s, Plus(va, k));
      } else {
        TruthPlain(x.tables, s, Plus(va, j));
        TruthPlain(x.tables, s, Plus(va, k));
      }
    }
    if InOneWord(s, va, width) {
      forall k: nat | k < 4 ensures at(Plus(va, k)) == Plus(at(va), k) {
        WordPlace(x.tables, s, va, k);
      }
    }
  }

  lemma TruthPlain(tables: T.Memory, s: P.System, va: Word)
    requires !Translating(s)
    ensures Truth(tables, s, va) == va
  {
  }

  lemma WordPlace(tables: T.Memory, s: P.System, va: Word, k: nat)
    requires k < 4 && (Translating(s) ==> va % 0x1000 <= 0xFFC)
    ensures Truth(tables, s, Plus(va, k)) == Plus(Truth(tables, s, va), k)
  {
    hide Truth, T.Walk;
    if Translating(s) {
      hide Plus;
      SamePageWord(va, k);
      TruthIs(tables, s, va);
      TruthIs(tables, s, Plus(va, k));
      SamePageWord(Truth(tables, s, va), k);
    } else {
      TruthPlain(tables, s, va);
      TruthPlain(tables, s, Plus(va, k));
    }
  }

  /** Main result: on plain memory, whatever the page tables, a load of one, two or four bytes finds what a
      store to the same address left, and the store changed no byte that is not one of its own. */
  lemma PagedLoadAfterStore(x: Board<Ram>, m: Ram, s: P.System, va: Word, width: Width, value: Word, b: Word)
    requires OnRam(x)
    ensures var e := TablePlatform(x);
            var n := e.store(m, s, va, width, value);
            && e.load(n, s, va, width) == (value % (if width == 1 then 0x100 else if width == 2 then 0x1_0000 else 0x1_0000_0000), n)
            && ((forall k: nat :: k < width ==> b != Truth(x.tables, s, Plus(va, k))) ==> n(b) == m(b))
  {
    hide OnRam, Placed, ReadData, WriteData, Digit, Truth, Plus;
    var at := TrueAddress(x.tables)(s);
    TruthPlaces(x, s, va, width);
    LoadAfterStore(x, m, s, at, va, width, value);
    StoreLeaves(x, m, s, at, va, width, value, b);
    assert forall k: nat :: k < width ==> at(Plus(va, k)) == Truth(x.tables, s, Plus(va, k));
  }
}
