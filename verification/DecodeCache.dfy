/**
 The decoded-instruction cache and the stamps of compiled blocks: over every history of fetches and
 writes, also writes that land while an entry is being filled, a hit is the decode of the bytes
 that are in memory, and a stamp that passes its check vouches for every instruction of its block.
 */
module DecodeCache {
  import opened Isa
  import opened Wrappers
  import opened Bytes
  import opened CodeMemory

  datatype Entry = Entry(pc: Word, mode: Mode, first: nat, last: nat, insn: Decoded)

  /** `fills` counts slot writes. */
  datatype Cache = Cache(slots: seq<Option<Entry>>, hits: nat, misses: nat, fills: nat)

  /** Memory space and decoder. */
  datatype Fetcher<!M> = Fetcher(sp: Space<M>, decode: (Mode, seq<Byte>) -> Decoded)

  function LastByte(pc: Word, mode: Mode): Word {
    Plus(pc, Size(mode) - 1)
  }

  function SlotOf(pc: Word, slots: nat): (k: nat)
    requires slots > 0
    ensures k < slots
  {
    (pc / 2) % slots
  }

  /** The decode of the bytes in memory. */
  function Current<M>(f: Fetcher<M>, m: M, pc: Word, mode: Mode): Decoded {
    f.decode(mode, seq<Byte>(Size(mode), (k: nat) => f.sp.peek(m, Plus(pc, k))))
  }

  /** An instruction read byte by byte; other bus masters may write before each byte. */
  function ReadBytes<M>(sp: Space<M>, m: M, pc: Word, n: nat, dma: nat -> seq<Write>): (M, seq<Byte>) {
    if n == 0 then (m, [])
    else
      var (m1, bytes) := ReadBytes(sp, m, pc, n - 1, dma);
      var m2 := After(sp, m1, dma(n - 1));
      (m2, bytes + [sp.peek(m2, Plus(pc, n - 1))])
  }

  /** The same through a page mapping. */
  function ReadMapped<M>(sp: Space<M>, m: M, pc: Word, n: nat, via: Word -> Word, dma: nat -> seq<Write>): (M, seq<Byte>) {
    if n == 0 then (m, [])
    else
      var (m1, bytes) := ReadMapped(sp, m, pc, n - 1, via, dma);
      var m2 := After(sp, m1, dma(n - 1));
      (m2, bytes + [sp.peek(m2, via(Plus(pc, n - 1)))])
  }

  predicate Matches(e: Entry, pc: Word, mode: Mode, first: nat, last: nat) {
    e.pc == pc && e.mode == mode && e.first == first && e.last == last
  }

  predicate IsHit<M>(f: Fetcher<M>, c: Cache, m: M, pc: Word, mode: Mode)
    requires |c.slots| > 0
  {
    var e, x, y := c.slots[SlotOf(pc, |c.slots|)], Token(f.sp, m, pc), Token(f.sp, m, LastByte(pc, mode));
    e.Some? && x.Some? && y.Some? && Matches(e.value, pc, mode, x.value, y.value)
  }

  /** `fetch_cached_instruction`: a translated fetch bypasses the cache, whose keys are not virtual
      addresses; otherwise the tokens are sampled before the bytes are read. */
  function FetchInstruction<M>(f: Fetcher<M>, c: Cache, m: M, pc: Word, mode: Mode, via: Option<Word -> Word>,
                               dma: nat -> seq<Write>): (Cache, M, Decoded)
    requires |c.slots| > 0
  {
    if via.Some? then
      var (m', bytes) := ReadMapped(f.sp, m, pc, Size(mode), via.value, dma);
      (c, m', f.decode(mode, bytes))
    else FetchThrough(f, c, m, pc, mode, dma)
  }

  function FetchThrough<M>(f: Fetcher<M>, c: Cache, m: M, pc: Word, mode: Mode, dma: nat -> seq<Write>): (Cache, M, Decoded)
    requires |c.slots| > 0
  {
    var k := SlotOf(pc, |c.slots|);
    var first, last := Token(f.sp, m, pc), Token(f.sp, m, LastByte(pc, mode));
    if IsHit(f, c, m, pc, mode) then (c.(hits := c.hits + 1), m, c.slots[k].value.insn)
    else
      var (m', bytes) := ReadBytes(f.sp, m, pc, Size(mode), dma);
      var insn := f.decode(mode, bytes);
      if first.Some? && last.Some? then
        (Cache(c.slots[k := Some(Entry(pc, mode, first.value, last.value, insn))], c.hits, c.misses + 1, c.fills + 1), m', insn)
      else (c, m', insn)
  }

  // ---- coherence ----

  /** Whenever, now or after any more writes, the tokens are the entry's, the entry is the decode of
      the bytes then in memory. */
  ghost predicate Vouches<M(!new)>(f: Fetcher<M>, e: Entry, m: M) {
    forall ws: seq<Write> :: TokensAre(f, After(f.sp, m, ws), e) ==> e.insn == Current(f, After(f.sp, m, ws), e.pc, e.mode)
  }

  predicate TokensAre<M>(f: Fetcher<M>, m: M, e: Entry) {
    Token(f.sp, m, e.pc) == Some(e.first) && Token(f.sp, m, LastByte(e.pc, e.mode)) == Some(e.last)
  }

  ghost predicate CacheCoherent<M(!new)>(f: Fetcher<M>, c: Cache, m: M) {
    |c.slots| > 0 && forall k :: 0 <= k < |c.slots| && c.slots[k].Some? ==> Vouches(f, c.slots[k].value, m)
  }

  lemma VouchesLater<M(!new)>(f: Fetcher<M>, e: Entry, m: M, vs: seq<Write>)
    requires Vouches(f, e, m)
    ensures Vouches(f, e, After(f.sp, m, vs))
  {
    forall ws: seq<Write> | TokensAre(f, After(f.sp, After(f.sp, m, vs), ws), e)
      ensures e.insn == Current(f, After(f.sp, After(f.sp, m, vs), ws), e.pc, e.mode)
    {
      AfterConcat(f.sp, m, vs, ws);
    }
  }

  /** Reading lets some writes happen; each byte read is the byte of some moment of that history. */
  lemma {:induction false} ReadHistory<M(!new)>(sp: Space<M>, m: M, pc: Word, n: nat, dma: nat -> seq<Write>)
    returns (ws: seq<Write>, cut: seq<nat>)
    ensures |cut| == n && |ReadBytes(sp, m, pc, n, dma).1| == n && ReadBytes(sp, m, pc, n, dma).0 == After(sp, m, ws)
    ensures forall k :: 0 <= k < n ==>
              cut[k] <= |ws| && ReadBytes(sp, m, pc, n, dma).1[k] == sp.peek(After(sp, m, ws[..cut[k]]), Plus(pc, k))
  {
    if n == 0 {
      ws, cut := [], [];
    } else {
      var us, done := ReadHistory(sp, m, pc, n - 1, dma);
      AfterConcat(sp, m, us, dma(n - 1));
      ws, cut := us + dma(n - 1), done + [|us + dma(n - 1)|];
      assert ws[..|ws|] == ws;
      forall k | 0 <= k < n - 1 ensures ws[..cut[k]] == us[..cut[k]] {
      }
    }
  }

  /** An entry filled while other masters write vouches for memory all the same. */
  lemma FillVouches<M(!new)>(f: Fetcher<M>, m: M, pc: Word, mode: Mode, dma: nat -> seq<Write>, e: Entry)
    requires Coherent(f.sp) && TokensAre(f, m, e) && e.pc == pc && e.mode == mode
    requires e.insn == f.decode(mode, ReadBytes(f.sp, m, pc, Size(mode), dma).1)
    ensures Vouches(f, e, ReadBytes(f.sp, m, pc, Size(mode), dma).0)
  {
    var n := Size(mode);
    var (m', bytes) := ReadBytes(f.sp, m, pc, n, dma);
    var ws, cut := ReadHistory(f.sp, m, pc, n, dma);
    forall vs: seq<Write> | TokensAre(f, After(f.sp, m', vs), e)
      ensures e.insn == Current(f, After(f.sp, m', vs), pc, mode)
    {
      var later := After(f.sp, m', vs);
      AfterConcat(f.sp, m, ws, vs);
      forall k | 0 <= k < n ensures bytes[k] == f.sp.peek(later, Plus(pc, k)) {
        assert (ws + vs)[..cut[k]] == ws[..cut[k]];
        SameByte(f, m, ws + vs, cut[k], e, k);
      }
      assert bytes == seq<Byte>(n, (k: nat) => f.sp.peek(later, Plus(pc, k)));
    }
  }

  /** With both tokens as they were, byte `k` of the instruction is what it was at any moment. */
  lemma SameByte<M(!new)>(f: Fetcher<M>, m: M, ws: seq<Write>, cut: nat, e: Entry, k: nat)
    requires Coherent(f.sp) && cut <= |ws| && k < Size(e.mode)
    requires TokensAre(f, m, e) && TokensAre(f, After(f.sp, m, ws), e)
    ensures f.sp.peek(After(f.sp, m, ws[..cut]), Plus(e.pc, k)) == f.sp.peek(After(f.sp, m, ws), Plus(e.pc, k))
  {
    AfterConcat(f.sp, m, ws[..cut], ws[cut..]);
    assert ws[..cut] + ws[cut..] == ws;
    var a := Plus(e.pc, k);
    assert f.sp.unit(a) == f.sp.unit(e.pc) || f.sp.unit(a) == f.sp.unit(LastByte(e.pc, e.mode));
    assert Token(f.sp, After(f.sp, m, ws), a) == Token(f.sp, m, a);
  }

  /** Reading through a mapping lets some writes happen too. */
  lemma {:induction false} MappedHistory<M(!new)>(sp: Space<M>, m: M, pc: Word, n: nat, via: Word -> Word, dma: nat -> seq<Write>)
    returns (ws: seq<Write>)
    ensures ReadMapped(sp, m, pc, n, via, dma).0 == After(sp, m, ws)
  {
    if n == 0 {
      ws := [];
    } else {
      var us := MappedHistory(sp, m, pc, n - 1, via, dma);
      AfterConcat(sp, m, us, dma(n - 1));
      ws := us + dma(n - 1);
    }
  }

  lemma FetchKeepsCoherent<M(!new)>(f: Fetcher<M>, c: Cache, m: M, pc: Word, mode: Mode, via: Option<Word -> Word>,
                                    dma: nat -> seq<Write>)
    requires Coherent(f.sp) && CacheCoherent(f, c, m)
    ensures var r := FetchInstruction(f, c, m, pc, mode, via, dma); CacheCoherent(f, r.0, r.1)
  {
    hide CacheCoherent, FetchThrough, ReadMapped;
    if via.Some? {
      var ws := MappedHistory(f.sp, m, pc, Size(mode), via.value, dma);
      WritesKeepCoherent(f, c, m, ws);
    } else {
      FetchThroughKeepsCoherent(f, c, m, pc, mode, dma);
    }
  }

  lemma FetchThroughKeepsCoherent<M(!new)>(f: Fetcher<M>, c: Cache, m: M, pc: Word, mode: Mode, dma: nat -> seq<Write>)
    requires Coherent(f.sp) && CacheCoherent(f, c, m)
    ensures CacheCoherent(f, FetchThrough(f, c, m, pc, mode, dma).0, FetchThrough(f, c, m, pc, mode, dma).1)
  {
    var (c', m', insn) := FetchThrough(f, c, m, pc, mode, dma);
    if !IsHit(f, c, m, pc, mode) {
      var ws, _ := ReadHistory(f.sp, m, pc, Size(mode), dma);
      forall k | 0 <= k < |c'.slots| && c'.slots[k].Some? ensures Vouches(f, c'.slots[k].value, m') {
        if c'.slots[k] == c.slots[k] {
          VouchesLater(f, c.slots[k].value, m, ws);
        } else {
          FillVouches(f, m, pc, mode, dma, c'.slots[k].value);
        }
      }
    }
  }

  lemma WritesKeepCoherent<M(!new)>(f: Fetcher<M>, c: Cache, m: M, ws: seq<Write>)
    requires CacheCoherent(f, c, m)
    ensures CacheCoherent(f, c, After(f.sp, m, ws))
  {
    forall k | 0 <= k < |c.slots| && c.slots[k].Some? ensures Vouches(f, c.slots[k].value, After(f.sp, m, ws)) {
      VouchesLater(f, c.slots[k].value, m, ws);
    }
  }

  lemma HitIsCurrent<M(!new)>(f: Fetcher<M>, c: Cache, m: M, pc: Word, mode: Mode)
    requires CacheCoherent(f, c, m) && IsHit(f, c, m, pc, mode)
    ensures c.slots[SlotOf(pc, |c.slots|)].value.insn == Current(f, m, pc, mode)
  {
    var e := c.slots[SlotOf(pc, |c.slots|)].value;
    assert After(f.sp, m, []) == m && TokensAre(f, After(f.sp, m, []), e);
  }

  // ---- the cache in place ----

  class InstructionCache<!M(!new)> {
    const slots: array<Option<Entry>>
    var hits: nat
    var misses: nat
    var fills: nat

    ghost predicate Valid()
      reads this
    {
      slots.Length > 0
    }

    ghost function Value(): (c: Cache)
      requires Valid()
      reads this, slots
      ensures |c.slots| > 0
    {
      Cache(slots[..], hits, misses, fills)
    }

    constructor (size: nat)
      requires size > 0
      ensures Valid() && fresh(slots) && Value() == Cache(seq(size, _ => None), 0, 0, 0)
    {
      slots := new Option<Entry>[size](_ => None);
      hits, misses, fills := 0, 0, 0;
    }

    /** Reads and decodes an instruction, byte by byte over the bus. */
    method ReadAndDecode(f: Fetcher<M>, m: M, pc: Word, mode: Mode, dma: nat -> seq<Write>) returns (mem: M, insn: Decoded)
      ensures (mem, insn) == (ReadBytes(f.sp, m, pc, Size(mode), dma).0,
                              f.decode(mode, ReadBytes(f.sp, m, pc, Size(mode), dma).1))
    {
      var bytes: seq<Byte> := [];
      mem := m;
      var k := 0;
      while k < Size(mode)
        invariant k <= Size(mode) && (mem, bytes) == ReadBytes(f.sp, m, pc, k, dma)
      {
        mem := After(f.sp, mem, dma(k));
        bytes := bytes + [f.sp.peek(mem, Plus(pc, k))];
        k := k + 1;
      }
      insn := f.decode(mode, bytes);
    }

    /** The same for a translated fetch. */
    method ReadAndDecodeMapped(f: Fetcher<M>, m: M, pc: Word, mode: Mode, via: Word -> Word, dma: nat -> seq<Write>)
      returns (mem: M, insn: Decoded)
      ensures (mem, insn) == (ReadMapped(f.sp, m, pc, Size(mode), via, dma).0,
                              f.decode(mode, ReadMapped(f.sp, m, pc, Size(mode), via, dma).1))
    {
      var bytes: seq<Byte> := [];
      mem := m;
      var k := 0;
      while k < Size(mode)
        invariant k <= Size(mode) && (mem, bytes) == ReadMapped(f.sp, m, pc, k, via, dma)
      {
        mem := After(f.sp, mem, dma(k));
        bytes := bytes + [f.sp.peek(mem, via(Plus(pc, k)))];
        k := k + 1;
      }
      insn := f.decode(mode, bytes);
    }

    /** `fetch_cached_instruction`. */
    method FetchCachedInstruction(f: Fetcher<M>, m: M, pc: Word, mode: Mode, via: Option<Word -> Word>, dma: nat -> seq<Write>)
      returns (mem: M, insn: Decoded)
      requires Valid()
      modifies this, slots
      ensures Valid() && (Value(), mem, insn) == FetchInstruction(f, old(Value()), m, pc, mode, via, dma)
    {
      hide ReadBytes, ReadMapped;
      if via.Some? {
        mem, insn := ReadAndDecodeMapped(f, m, pc, mode, via.value, dma);
        return;
      }
      var first := Token(f.sp, m, pc);
      var last := Token(f.sp, m, LastByte(pc, mode));
      if first.Some? && last.Some? {
        var k := SlotOf(pc, slots.Length);
        var e := slots[k];
        if e.Some? && Matches(e.value, pc, mode, first.value, last.value) {
          hits := hits + 1;
          return m, e.value.insn;
        }
        misses := misses + 1;
        fills := fills + 1;
        mem, insn := ReadAndDecode(f, m, pc, mode, dma);
        slots[k] := Some(Entry(pc, mode, first.value, last.value, insn));
      } else {
        mem, insn := ReadAndDecode(f, m, pc, mode, dma);
      }
    }
  }

  // ---- histories ----

  datatype Event =
    | FetchEvent(pc: Word, mode: Mode, via: Option<Word -> Word>, dma: nat -> seq<Write>)
    | WriteEvent(writes: seq<Write>)

  datatype World<!M> = World(cache: Cache, mem: M)

  function StepWorld<M>(f: Fetcher<M>, w: World<M>, e: Event): (v: World<M>)
    requires |w.cache.slots| > 0
    ensures |v.cache.slots| > 0
  {
    match e
    case FetchEvent(pc, mode, via, dma) => var r := FetchInstruction(f, w.cache, w.mem, pc, mode, via, dma); World(r.0, r.1)
    case WriteEvent(ws) => w.(mem := After(f.sp, w.mem, ws))
  }

  function RunWorld<M>(f: Fetcher<M>, w: World<M>, es: seq<Event>): (v: World<M>)
    requires |w.cache.slots| > 0
    ensures |v.cache.slots| > 0
    decreases |es|
  {
    if es == [] then w else StepWorld(f, RunWorld(f, w, es[..|es| - 1]), es[|es| - 1])
  }

  lemma {:induction false} RunKeepsCoherent<M(!new)>(f: Fetcher<M>, w: World<M>, es: seq<Event>)
    requires Coherent(f.sp) && CacheCoherent(f, w.cache, w.mem)
    ensures CacheCoherent(f, RunWorld(f, w, es).cache, RunWorld(f, w, es).mem)
    decreases |es|
  {
    if es == [] {
    } else {
      var v := RunWorld(f, w, es[..|es| - 1]);
      RunKeepsCoherent(f, w, es[..|es| - 1]);
      match es[|es| - 1] {
        case FetchEvent(pc, mode, via, dma) => FetchKeepsCoherent(f, v.cache, v.mem, pc, mode, via, dma);
        case WriteEvent(ws) => WritesKeepCoherent(f, v.cache, v.mem, ws);
      }
    }
  }

  /** Main result: after every history from an empty cache, a fetch without concurrent writes returns
      the decode of the bytes in memory, where a translated one finds them, and a hit does so whatever
      other masters are about to do. */
  lemma FetchIsCurrent<M(!new)>(f: Fetcher<M>, slots: nat, m: M, es: seq<Event>, pc: Word, mode: Mode,
                                via: Option<Word -> Word>, dma: nat -> seq<Write>)
    requires Coherent(f.sp) && slots > 0
    ensures var w := RunWorld(f, World(Cache(seq(slots, _ => None), 0, 0, 0), m), es);
            var r := FetchInstruction(f, w.cache, w.mem, pc, mode, via, dma);
            && (via.None? && (IsHit(f, w.cache, w.mem, pc, mode) || forall k: nat :: dma(k) == []) ==>
                  r.2 == Current(f, w.mem, pc, mode))
            && (via.Some? ==> r.0 == w.cache)
            && (via.Some? && (forall k: nat :: dma(k) == []) ==> r.2 == CurrentThrough(f, w.mem, pc, mode, via.value))
  {
    hide RunWorld, CacheCoherent, ReadBytes, ReadMapped;
    var empty := Cache(seq(slots, _ => None), 0, 0, 0);
    var w := RunWorld(f, World(empty, m), es);
    EmptyIsCoherent(f, slots, m);
    RunKeepsCoherent(f, World(empty, m), es);
    if via.None? && IsHit(f, w.cache, w.mem, pc, mode) {
      HitIsCurrent(f, w.cache, w.mem, pc, mode);
    } else if forall k: nat :: dma(k) == [] {
      if via.Some? {
        QuietMappedRead(f.sp, w.mem, pc, Size(mode), via.value, dma);
      } else {
        QuietRead(f.sp, w.mem, pc, Size(mode), dma);
      }
    }
  }

  /** The decode of the bytes that a page mapping finds. */
  function CurrentThrough<M>(f: Fetcher<M>, m: M, pc: Word, mode: Mode, via: Word -> Word): Decoded {
    f.decode(mode, seq<Byte>(Size(mode), (k: nat) => f.sp.peek(m, via(Plus(pc, k)))))
  }

  lemma EmptyIsCoherent<M(!new)>(f: Fetcher<M>, slots: nat, m: M)
    requires slots > 0
    ensures CacheCoherent(f, Cache(seq(slots, _ => None), 0, 0, 0), m)
  {
  }

  lemma {:induction false} QuietMappedRead<M>(sp: Space<M>, m: M, pc: Word, n: nat, via: Word -> Word, dma: nat -> seq<Write>)
    requires forall k: nat :: dma(k) == []
    ensures ReadMapped(sp, m, pc, n, via, dma) == (m, seq<Byte>(n, (k: nat) => sp.peek(m, via(Plus(pc, k)))))
  {
    if n == 0 {
    } else {
      QuietMappedRead(sp, m, pc, n - 1, via, dma);
      assert dma(n - 1) == [];
      var all := seq<Byte>(n, (k: nat) => sp.peek(m, via(Plus(pc, k))));
      assert all == seq<Byte>(n - 1, (k: nat) => sp.peek(m, via(Plus(pc, k)))) + [all[n - 1]];
    }
  }

  lemma {:induction false} QuietRead<M>(sp: Space<M>, m: M, pc: Word, n: nat, dma: nat -> seq<Write>)
    requires forall k: nat :: dma(k) == []
    ensures ReadBytes(sp, m, pc, n, dma) == (m, seq<Byte>(n, (k: nat) => sp.peek(m, Plus(pc, k))))
  {
    if n == 0 {
    } else {
      QuietRead(sp, m, pc, n - 1, dma);
      assert dma(n - 1) == [];
      var all := seq<Byte>(n, (k: nat) => sp.peek(m, Plus(pc, k)));
      assert all == seq<Byte>(n - 1, (k: nat) => sp.peek(m, Plus(pc, k))) + [all[n - 1]];
    }
  }
}
