/**
 Executable memory with generation tokens. A token belongs to a unit of addresses and changes
 whenever a byte of the unit does; main memory keeps one counter per page.
 */
module CodeMemory {
  import opened Isa
  import opened Wrappers
  import opened Bytes

  datatype Write = Write(addr: Word, value: Byte)

  /** A bus as instruction fetch sees it: which unit an address is in (`None` if its instructions
      may not be cached), the current token of a unit, and bytes that writes change. */
  datatype Space<!M> = Space(unit: Word -> Option<nat>, gen: (M, nat) -> nat, peek: (M, Word) -> Byte, write: (M, Write) -> M)

  function Token<M>(sp: Space<M>, m: M, a: Word): Option<nat> {
    var u := sp.unit(a);
    if u.Some? then Some(sp.gen(m, u.value)) else None
  }

  function After<M>(sp: Space<M>, m: M, ws: seq<Write>): M {
    if ws == [] then m else sp.write(After(sp, m, ws[..|ws| - 1]), ws[|ws| - 1])
  }

  lemma {:induction false} AfterConcat<M>(sp: Space<M>, m: M, ws: seq<Write>, vs: seq<Write>)
    ensures After(sp, After(sp, m, ws), vs) == After(sp, m, ws + vs)
    decreases |vs|
  {
    if vs == [] {
      assert ws + vs == ws;
    } else {
      var n := |vs| - 1;
      AfterConcat(sp, m, ws, vs[..n]);
      assert (ws + vs)[..|ws + vs| - 1] == ws + vs[..n] && (ws + vs)[|ws + vs| - 1] == vs[n];
    }
  }

  /** While a unit's token is what it was, its bytes are what they were and were at every moment in
      between (tokens never repeat). */
  ghost predicate TokensNeverRepeat<M(!new)>(sp: Space<M>) {
    forall m: M, ws: seq<Write>, vs: seq<Write>, a: Word ::
      sp.unit(a).Some? && Token(sp, After(sp, After(sp, m, ws), vs), a) == Token(sp, m, a) ==>
        sp.peek(After(sp, After(sp, m, ws), vs), a) == sp.peek(After(sp, m, ws), a)
  }

  /** The bytes of an instruction lie in the units of its first and last byte. */
  ghost predicate EndsCover<M(!new)>(sp: Space<M>) {
    forall pc: Word, mode: Mode, k: nat :: k < Size(mode) && sp.unit(pc).Some? && sp.unit(Plus(pc, Size(mode) - 1)).Some? ==>
      sp.unit(Plus(pc, k)) == sp.unit(pc) || sp.unit(Plus(pc, k)) == sp.unit(Plus(pc, Size(mode) - 1))
  }

  ghost predicate Coherent<M(!new)>(sp: Space<M>) {
    TokensNeverRepeat(sp) && EndsCover(sp)
  }

  // ---- main memory keeps the contract ----

  const CODE_PAGE: nat := 4096

  datatype Ram = Ram(data: seq<Byte>, gens: seq<nat>)

  /** A write counts in the page's generation only if it changes the byte. */
  function WriteRam(r: Ram, w: Write): Ram {
    if w.addr >= |r.data| || w.addr / CODE_PAGE >= |r.gens| then r
    else
      var page := w.addr / CODE_PAGE;
      Ram(r.data[w.addr := w.value],
          if r.data[w.addr] != w.value then r.gens[page := r.gens[page] + 1] else r.gens)
  }

  function GenOf(r: Ram, page: nat): nat {
    if page < |r.gens| then r.gens[page] else 0
  }

  function ByteOf(r: Ram, a: Word): Byte {
    if a < |r.data| then r.data[a] else 0
  }

  function RamSpace(size: Word): Space<Ram> {
    Space((a: Word) => if a < size then Some(a / CODE_PAGE) else None, GenOf, ByteOf, WriteRam)
  }

  lemma WriteCounts(r: Ram, w: Write, a: Word)
    ensures GenOf(r, a / CODE_PAGE) <= GenOf(WriteRam(r, w), a / CODE_PAGE)
    ensures ByteOf(r, a) != ByteOf(WriteRam(r, w), a) ==> GenOf(r, a / CODE_PAGE) < GenOf(WriteRam(r, w), a / CODE_PAGE)
  {
  }

  /** Exactly the addresses of main memory have a token, the generation of their page. */
  lemma RamTokens(size: Word, r: Ram, a: Word)
    ensures Token(RamSpace(size), r, a) == if a < size then Some(GenOf(r, a / 4096)) else None
  {
  }

  /** A write that changes a byte moves the generation of its page of 4096 bytes by one; any other write, and
      every other page, keeps it. */
  lemma GenerationsMoveIff(r: Ram, w: Write, a: Word, page: nat)
    requires w.addr < |r.data| && w.addr / 4096 < |r.gens|
    ensures ByteOf(WriteRam(r, w), a) == if a == w.addr then w.value else ByteOf(r, a)
    ensures GenOf(WriteRam(r, w), page) == GenOf(r, page) + if page == w.addr / 4096 && ByteOf(r, w.addr) != w.value then 1 else 0
  {
  }

  lemma {:induction false} GenerationsGrow(size: Word, r: Ram, ws: seq<Write>, a: Word)
    ensures GenOf(r, a / CODE_PAGE) <= GenOf(After(RamSpace(size), r, ws), a / CODE_PAGE)
    ensures ByteOf(r, a) != ByteOf(After(RamSpace(size), r, ws), a) ==>
              GenOf(r, a / CODE_PAGE) < GenOf(After(RamSpace(size), r, ws), a / CODE_PAGE)
    decreases |ws|
  {
    if ws == [] {
    } else {
      var n := |ws| - 1;
      GenerationsGrow(size, r, ws[..n], a);
      WriteCounts(After(RamSpace(size), r, ws[..n]), ws[n], a);
    }
  }

  lemma InOrder(size: Word, m: Ram, ws: seq<Write>, vs: seq<Write>, a: Word)
    requires a < size
    requires GenOf(After(RamSpace(size), After(RamSpace(size), m, ws), vs), a / CODE_PAGE) == GenOf(m, a / CODE_PAGE)
    ensures ByteOf(After(RamSpace(size), After(RamSpace(size), m, ws), vs), a) == ByteOf(After(RamSpace(size), m, ws), a)
  {
    GenerationsGrow(size, m, ws, a);
    GenerationsGrow(size, After(RamSpace(size), m, ws), vs, a);
  }

  /** Main memory keeps both promises when its size is a whole number of pages. */
  lemma RamIsCoherent(size: Word)
    requires size % CODE_PAGE == 0
    ensures Coherent(RamSpace(size))
  {
    var sp := RamSpace(size);
    forall m: Ram, ws: seq<Write>, vs: seq<Write>, a: Word
      | sp.unit(a).Some? && Token(sp, After(sp, After(sp, m, ws), vs), a) == Token(sp, m, a)
      ensures sp.peek(After(sp, After(sp, m, ws), vs), a) == sp.peek(After(sp, m, ws), a)
    {
      InOrder(size, m, ws, vs, a);
    }
    forall pc: Word, mode: Mode, k: nat | k < Size(mode) && sp.unit(pc).Some? && sp.unit(Plus(pc, Size(mode) - 1)).Some?
      ensures sp.unit(Plus(pc, k)) == sp.unit(pc) || sp.unit(Plus(pc, k)) == sp.unit(Plus(pc, Size(mode) - 1))
    {
      PagesCover(size, pc, Size(mode), k);
    }
  }

  lemma PagesCover(size: Word, pc: Word, n: nat, k: nat)
    requires size % CODE_PAGE == 0 && pc < size && 0 < n <= 4 && k < n
    ensures Plus(pc, k) < size || Plus(pc, n - 1) >= size
    ensures Plus(pc, k) / CODE_PAGE == pc / CODE_PAGE || Plus(pc, k) / CODE_PAGE == Plus(pc, n - 1) / CODE_PAGE
  {
    assert size <= 0x1_0000_0000 - CODE_PAGE;
  }
}
