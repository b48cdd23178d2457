/** What the decode cache is good for: when a fetch hits, and what a fill displaces. */
module DecodeHits {
  import opened Isa
  import opened Wrappers
  import opened Numbers
  import opened CodeMemory
  import opened DecodeCache

  /** The address of an instruction's last byte. */
  function End(pc: Word, mode: Mode): Word {
    (pc + if mode == Normal then 3 else 1) % 0x1_0000_0000
  }

  /** The instruction lies in memory that counts its changes. */
  predicate Cacheable<M>(f: Fetcher<M>, pc: Word, mode: Mode) {
    f.sp.unit(pc).Some? && f.sp.unit(End(pc, mode)).Some?
  }

  /** Neither count has changed between the two moments. */
  predicate Unchanged<M>(f: Fetcher<M>, m: M, n: M, pc: Word, mode: Mode)
    requires Cacheable(f, pc, mode)
  {
    && f.sp.gen(m, f.sp.unit(pc).value) == f.sp.gen(n, f.sp.unit(pc).value)
    && f.sp.gen(m, f.sp.unit(End(pc, mode)).value) == f.sp.gen(n, f.sp.unit(End(pc, mode)).value)
  }

  lemma EndIsLast(pc: Word, mode: Mode)
    ensures LastByte(pc, mode) == End(pc, mode)
  {
  }

  /** Once fetched, an instruction of such memory hits exactly as long as neither count changes; other
      memory never hits. */
  lemma FetchedHits<M>(f: Fetcher<M>, c: Cache, m: M, pc: Word, mode: Mode, dma: nat -> seq<Write>, later: M)
    requires |c.slots| > 0
    ensures var after := FetchThrough(f, c, m, pc, mode, dma).0;
            |after.slots| == |c.slots|
            && (IsHit(f, after, later, pc, mode) <==> Cacheable(f, pc, mode) && Unchanged(f, m, later, pc, mode))
  {
    EndIsLast(pc, mode);
  }

  /** A fetch touches no other slot; a hit touches none, and a fill takes the slot of whatever was there. */
  lemma FillDisplaces<M>(f: Fetcher<M>, c: Cache, m: M, pc: Word, mode: Mode, dma: nat -> seq<Write>, qc: Word, other: Mode, later: M)
    requires |c.slots| > 0 && (qc, other) != (pc, mode)
    ensures var after := FetchThrough(f, c, m, pc, mode, dma).0;
            |after.slots| == |c.slots|
            && (IsHit(f, after, later, qc, other) <==>
                  IsHit(f, c, later, qc, other)
                  && (IsHit(f, c, m, pc, mode) || !Cacheable(f, pc, mode) || SlotOf(qc, |c.slots|) != SlotOf(pc, |c.slots|)))
  {
    EndIsLast(pc, mode);
  }

  /** Two addresses compete for a slot exactly if their halfwords are a multiple of the slots apart. */
  lemma SlotsCompete(pc: Word, qc: Word, slots: nat)
    requires slots > 0
    ensures SlotOf(pc, slots) == SlotOf(qc, slots) <==> (pc / 2 - qc / 2) % slots == 0
  {
    SameRemainder(pc / 2, qc / 2, slots);
  }

  lemma SameRemainder(a: nat, b: nat, n: nat)
    requires n > 0
    ensures a % n == b % n <==> (a - b) % n == 0
  {
    var d := a / n - b / n;
    assert a - b == d * n + (a % n - b % n);
    if a % n == b % n {
      MultipleIs(d, n);
    } else if (a - b) % n == 0 {
      assert (a - b) == (a - b) / n * n;
      assert ((a - b) / n - d) * n == a % n - b % n;
      SmallMultiple((a - b) / n - d, n);
    }
  }

  lemma MultipleIs(d: int, n: nat)
    requires n > 0
    ensures (d * n) % n == 0
  {
    assert (d * n) == (d * n) / n * n + (d * n) % n;
    assert (d - (d * n) / n) * n == (d * n) % n;
    SmallMultiple(d - (d * n) / n, n);
  }

  /** The counters: every fetch of such memory is a hit or a fill. */
  lemma FetchesAreCounted<M>(f: Fetcher<M>, c: Cache, m: M, pc: Word, mode: Mode, dma: nat -> seq<Write>)
    requires |c.slots| > 0
    ensures var after := FetchThrough(f, c, m, pc, mode, dma).0;
            if !Cacheable(f, pc, mode) then after == c
            else after.hits + after.misses == c.hits + c.misses + 1 && after.misses - c.misses == after.fills - c.fills
                 && (after.hits == c.hits + 1 <==> IsHit(f, c, m, pc, mode)) && after.hits >= c.hits && after.misses >= c.misses
  {
    EndIsLast(pc, mode);
  }
}
