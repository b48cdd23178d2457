/**
 Stamps of compiled blocks: validating a block against the decode cache once, and trusting the
 stamp of that validation later.
 */
module BatchStamps {
  import opened Isa
  import opened Wrappers
  import opened CodeMemory
  import opened DecodeCache
  import opened JitBatch

  const MAX_UNITS: nat := 2

  /** The address range that shares the token of an address. */
  type Span = Word -> (Word, Word)

  predicate InSpan(span: Span, a: Word, b: Word) {
    span(a).0 <= b <= span(a).1
  }

  ghost predicate SpanOk<M>(sp: Space<M>, span: Span) {
    && (forall a: Word :: sp.unit(a).Some? ==> InSpan(span, a, a))
    && (forall a: Word, b: Word :: sp.unit(a).Some? && InSpan(span, a, b) ==> sp.unit(b) == sp.unit(a))
  }

  /** Main memory's spans are its pages, the last one cut at its end. */
  function RamSpan(size: Word): Span {
    (a: Word) => (a - a % CODE_PAGE, LastOfPage(size, a))
  }

  function LastOfPage(size: Word, a: Word): Word {
    var last := a - a % CODE_PAGE + (CODE_PAGE - 1);
    if last < size then last else if size > 0 then size - 1 else 0
  }

  lemma RamSpanOk(size: Word)
    ensures SpanOk(RamSpace(size), RamSpan(size))
  {
    forall a: Word, b: Word | a < size && InSpan(RamSpan(size), a, b)
      ensures RamSpace(size).unit(b) == RamSpace(size).unit(a)
    {
      SamePage(size, a, b);
    }
  }

  lemma SamePage(size: Word, a: Word, b: Word)
    requires a < size && a - a % CODE_PAGE <= b <= LastOfPage(size, a)
    ensures b < size && b / CODE_PAGE == a / CODE_PAGE
  {
  }

  /** A span of main memory is all of its page that there is. */
  lemma RamSpanIs(size: Word, a: Word, b: Word)
    requires a < size
    ensures InSpan(RamSpan(size), a, b) <==> b / 4096 == a / 4096 && b < size
  {
    assert a - a % CODE_PAGE == a / 4096 * 4096;
  }

  /** Proof that every instruction of a block was a hit: the fill count, and the tokens of the units
      the block lies in. */
  datatype Stamp = Stamp(fills: nat, units: seq<(nat, Word)>)

  predicate ItemHit<M>(f: Fetcher<M>, c: Cache, m: M, item: Item)
    requires |c.slots| > 0
  {
    IsHit(f, c, m, item.pc, Normal) && c.slots[SlotOf(item.pc, |c.slots|)].value.insn == N(item.insn)
  }

  predicate StampPasses<M>(f: Fetcher<M>, c: Cache, m: M, stamp: Stamp) {
    stamp.fills == c.fills && forall k :: 0 <= k < |stamp.units| ==> Token(f.sp, m, stamp.units[k].1) == Some(stamp.units[k].0)
  }

  /** Leading instructions that are current hits. */
  function LeadingHits<M>(f: Fetcher<M>, c: Cache, m: M, items: seq<Item>, k: nat): (n: nat)
    requires |c.slots| > 0 && k <= |items|
    ensures k <= n <= |items|
    ensures forall j :: k <= j < n ==> ItemHit(f, c, m, items[j])
    ensures n < |items| ==> !ItemHit(f, c, m, items[n])
    decreases |items| - k
  {
    if k == |items| || !ItemHit(f, c, m, items[k]) then k else LeadingHits(f, c, m, items, k + 1)
  }

  /** The token of `a`'s unit is among `units`. */
  ghost predicate Listed<M>(f: Fetcher<M>, m: M, units: seq<(nat, Word)>, a: Word) {
    exists k :: 0 <= k < |units| && f.sp.unit(units[k].1) == f.sp.unit(a) && Token(f.sp, m, a) == Some(units[k].0)
  }

  /** The units of both ends of the first `n` instructions are listed. */
  ghost predicate AllListed<M>(f: Fetcher<M>, m: M, units: seq<(nat, Word)>, items: seq<Item>, n: nat)
    requires n <= |items|
  {
    forall j :: 0 <= j < n ==> Listed(f, m, units, items[j].pc) && Listed(f, m, units, LastByte(items[j].pc, Normal))
  }

  /** What validation carries along: the last span asked for, and the units seen. */
  datatype Memo = Memo(last: Option<(nat, Word, Word)>, units: seq<(nat, Word)>, stampable: bool)

  ghost predicate MemoOk<M>(f: Fetcher<M>, m: M, memo: Memo) {
    && |memo.units| <= MAX_UNITS
    && (memo.last.Some? ==>
          forall b: Word :: memo.last.value.1 <= b <= memo.last.value.2 ==>
            && Token(f.sp, m, b) == Some(memo.last.value.0)
            && (memo.stampable ==> Listed(f, m, memo.units, b)))
  }

  /** The generation at an address, from the remembered span if it is in there. */
  method Generation<M>(f: Fetcher<M>, span: Span, m: M, a: Word, memo: Memo) returns (token: Option<nat>, next: Memo)
    requires SpanOk(f.sp, span) && MemoOk(f, m, memo)
    ensures token == Token(f.sp, m, a) && MemoOk(f, m, next)
    ensures next.stampable ==> memo.stampable && (token.Some? ==> Listed(f, m, next.units, a))
    ensures memo.units <= next.units
    ensures forall l: Look :: Mirrors(memo, l) && token.Some? ==> Mirrors(next, LookAt(span, a, l))
  {
    if memo.last.Some? && memo.last.value.1 <= a <= memo.last.value.2 {
      return Some(memo.last.value.0), memo;
    }
    token := Token(f.sp, m, a);
    if token.None? {
      return token, memo.(last := None);
    }
    var (first, last) := span(a);
    if |memo.units| < MAX_UNITS {
      next := Memo(Some((token.value, first, last)), memo.units + [(token.value, first)], memo.stampable);
      forall b: Word | first <= b <= last ensures Token(f.sp, m, b) == token && Listed(f, m, next.units, b) {
        assert next.units[|memo.units|] == (token.value, first);
      }
    } else {
      next := Memo(Some((token.value, first, last)), memo.units, false);
    }
  }

  lemma ListedMore<M>(f: Fetcher<M>, m: M, units: seq<(nat, Word)>, more: seq<(nat, Word)>, items: seq<Item>, n: nat)
    requires units <= more && n <= |items| && AllListed(f, m, units, items, n)
    ensures AllListed(f, m, more, items, n)
  {
    forall j | 0 <= j < n
      ensures Listed(f, m, more, items[j].pc) && Listed(f, m, more, LastByte(items[j].pc, Normal))
    {
      ListedInMore(f, m, units, more, items[j].pc);
      ListedInMore(f, m, units, more, LastByte(items[j].pc, Normal));
    }
  }

  lemma ListedInMore<M>(f: Fetcher<M>, m: M, units: seq<(nat, Word)>, more: seq<(nat, Word)>, a: Word)
    requires units <= more && Listed(f, m, units, a)
    ensures Listed(f, m, more, a)
  {
    var k :| 0 <= k < |units| && f.sp.unit(units[k].1) == f.sp.unit(a) && Token(f.sp, m, a) == Some(units[k].0);
    assert more[k] == units[k];
  }

  // ---- how many units a block needs ----

  /** Units looked up so far, and the span of the last one. */
  datatype Look = Look(count: nat, range: Option<(Word, Word)>)

  /** An address outside the last span is looked up. */
  function LookAt(span: Span, a: Word, l: Look): Look {
    if l.range.Some? && l.range.value.0 <= a <= l.range.value.1 then l else Look(l.count + 1, Some(span(a)))
  }

  /** The first and last bytes of the first `n` instructions, in order. */
  function Looks(span: Span, items: seq<Item>, n: nat): Look
    requires n <= |items|
  {
    if n == 0 then Look(0, None)
    else LookAt(span, LastByte(items[n - 1].pc, Normal), LookAt(span, items[n - 1].pc, Looks(span, items, n - 1)))
  }

  predicate Mirrors(memo: Memo, l: Look) {
    && (memo.last.None? <==> l.range.None?)
    && (memo.last.Some? ==> l.range.value == (memo.last.value.1, memo.last.value.2))
    && (memo.stampable <==> l.count <= 2) && |memo.units| == if l.count <= 2 then l.count else 2
  }

  /** Whether one instruction is a current hit, looking its generations up as far as needed. */
  method CheckItem<M>(f: Fetcher<M>, span: Span, c: Cache, m: M, item: Item, memo: Memo) returns (hit: bool, next: Memo)
    requires SpanOk(f.sp, span) && |c.slots| > 0 && MemoOk(f, m, memo)
    ensures hit == ItemHit(f, c, m, item) && memo.units <= next.units
    ensures MemoOk(f, m, next) && (next.stampable ==> memo.stampable)
    ensures forall l: Look :: Mirrors(memo, l) && hit ==>
              Mirrors(next, LookAt(span, LastByte(item.pc, Normal), LookAt(span, item.pc, l)))
    ensures hit && next.stampable ==> Listed(f, m, next.units, item.pc) && Listed(f, m, next.units, LastByte(item.pc, Normal))
  {
    next := memo;
    var slot := c.slots[SlotOf(item.pc, |c.slots|)];
    if slot.None? || slot.value.pc != item.pc || slot.value.mode != Normal || slot.value.insn != N(item.insn) {
      return false, next;
    }
    var first, last;
    first, next := Generation(f, span, m, item.pc, next);
    if first != Some(slot.value.first) {
      return false, next;
    }
    ghost var middle := next;
    last, next := Generation(f, span, m, LastByte(item.pc, Normal), next);
    if next.stampable {
      ListedInMore(f, m, middle.units, next.units, item.pc);
    }
    return last == Some(slot.value.last), next;
  }

  /** `validate_native_batch`: counts the leading hits up to `limit`, and stamps a block exactly if it is
      all hits and needs at most two lookups of units. */
  method ValidateNativeBatch<M>(f: Fetcher<M>, span: Span, c: Cache, m: M, items: seq<Item>, limit: nat)
    returns (count: nat, stamp: Option<Stamp>)
    requires SpanOk(f.sp, span) && |c.slots| > 0
    ensures count == if LeadingHits(f, c, m, items, 0) < limit then LeadingHits(f, c, m, items, 0) else limit
    ensures stamp.Some? <==> LeadingHits(f, c, m, items, 0) == |items| && Looks(span, items, |items|).count <= 2
    ensures stamp.Some? ==>
              && stamp.value.fills == c.fills && |stamp.value.units| <= 2
              && AllListed(f, m, stamp.value.units, items, |items|)
  {
    hide ItemHit, Listed;
    var memo := Memo(None, [], true);
    var hits := 0;
    while hits < |items|
      invariant hits <= |items| && MemoOk(f, m, memo)
      invariant LeadingHits(f, c, m, items, 0) == LeadingHits(f, c, m, items, hits)
      invariant memo.stampable ==> AllListed(f, m, memo.units, items, hits)
      invariant Mirrors(memo, Looks(span, items, hits))
    {
      ghost var before := memo;
      var hit;
      hit, memo := CheckItem(f, span, c, m, items[hits], memo);
      if !hit {
        break;
      }
      if memo.stampable {
        ListedMore(f, m, before.units, memo.units, items, hits);
      }
      hits := hits + 1;
    }
    stamp := if hits == |items| && memo.stampable then Some(Stamp(c.fills, memo.units)) else None;
    count := if hits < limit then hits else limit;
  }

  // ---- a passing stamp is a full revalidation ----

  /** No slot changes without a fill. */
  lemma {:induction false} SameFillsSameSlots<M(!new)>(f: Fetcher<M>, w: World<M>, es: seq<Event>)
    requires |w.cache.slots| > 0
    ensures w.cache.fills <= RunWorld(f, w, es).cache.fills
    ensures w.cache.fills == RunWorld(f, w, es).cache.fills ==> w.cache.slots == RunWorld(f, w, es).cache.slots
    decreases |es|
  {
    if es == [] {
    } else {
      SameFillsSameSlots(f, w, es[..|es| - 1]);
    }
  }

  /** Main result: across every history of fetches and writes, if a block's stamp passes its check,
      every instruction of the block is a hit of the cache as it is now. */
  lemma StampVouches<M(!new)>(f: Fetcher<M>, w: World<M>, es: seq<Event>, items: seq<Item>, stamp: Stamp)
    requires |w.cache.slots| > 0 && LeadingHits(f, w.cache, w.mem, items, 0) == |items|
    requires stamp.fills == w.cache.fills && AllListed(f, w.mem, stamp.units, items, |items|)
    requires StampPasses(f, RunWorld(f, w, es).cache, RunWorld(f, w, es).mem, stamp)
    ensures LeadingHits(f, RunWorld(f, w, es).cache, RunWorld(f, w, es).mem, items, 0) == |items|
  {
    var v := RunWorld(f, w, es);
    SameFillsSameSlots(f, w, es);
    forall j | 0 <= j < |items| ensures ItemHit(f, v.cache, v.mem, items[j]) {
      assert ItemHit(f, w.cache, w.mem, items[j]);
      SameToken(f, w.mem, v.mem, stamp.units, items[j].pc);
      SameToken(f, w.mem, v.mem, stamp.units, LastByte(items[j].pc, Normal));
    }
  }

  lemma SameToken<M>(f: Fetcher<M>, m: M, later: M, units: seq<(nat, Word)>, a: Word)
    requires Listed(f, m, units, a)
    requires forall k :: 0 <= k < |units| ==> Token(f.sp, later, units[k].1) == Some(units[k].0)
    ensures Token(f.sp, later, a) == Token(f.sp, m, a)
  {
    var k :| 0 <= k < |units| && f.sp.unit(units[k].1) == f.sp.unit(a) && Token(f.sp, m, a) == Some(units[k].0);
    assert Token(f.sp, later, units[k].1) == Token(f.sp, later, a);
  }

  /** So what native code runs is what is in memory: with the cache coherent, a passing stamp means
      every instruction of the block is the decode of the bytes now there. */
  lemma StampedBlockIsCurrent<M(!new)>(f: Fetcher<M>, w: World<M>, es: seq<Event>, items: seq<Item>, stamp: Stamp, j: nat)
    requires CodeMemory.Coherent(f.sp) && CacheCoherent(f, w.cache, w.mem) && j < |items|
    requires |w.cache.slots| > 0 && LeadingHits(f, w.cache, w.mem, items, 0) == |items|
    requires stamp.fills == w.cache.fills && AllListed(f, w.mem, stamp.units, items, |items|)
    requires StampPasses(f, RunWorld(f, w, es).cache, RunWorld(f, w, es).mem, stamp)
    ensures DecodeCache.Current(f, RunWorld(f, w, es).mem, items[j].pc, Normal) == N(items[j].insn)
  {
    var v := RunWorld(f, w, es);
    StampVouches(f, w, es, items, stamp);
    RunKeepsCoherent(f, w, es);
    assert ItemHit(f, v.cache, v.mem, items[j]);
    HitIsCurrent(f, v.cache, v.mem, items[j].pc, Normal);
  }
}
