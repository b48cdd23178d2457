/**
 Native batches on stamped blocks. What the block compiler asks of code memory (that counted hits are
 the instructions in memory, and that unchanged code units mean an unchanged block) follows from the
 decode cache's tokens and the stamps, on every history of writes.
 */
module JitStamps {
  import opened Isa
  import opened Wrappers
  import opened CodeMemory
  import opened DecodeCache
  import opened BatchStamps
  import JitEmit
  import JitBatch
  import JitCpu

  /** The stamp was taken of this block in this cache, over memory `m`. */
  ghost predicate StampOk<M>(f: Fetcher<M>, c: Cache, m: M, items: seq<JitBatch.Item>, stamp: Stamp) {
    && |c.slots| > 0 && LeadingHits(f, c, m, items, 0) == |items|
    && stamp.fills == c.fills && AllListed(f, m, stamp.units, items, |items|)
  }

  /** All units of the stamp have the tokens they had. */
  predicate UnitsKept<M>(f: Fetcher<M>, m: M, stamp: Stamp) {
    forall k :: 0 <= k < |stamp.units| ==> Token(f.sp, m, stamp.units[k].1) == Some(stamp.units[k].0)
  }

  lemma ListedLater<M>(f: Fetcher<M>, m: M, later: M, units: seq<(nat, Word)>, a: Word)
    requires Listed(f, m, units, a)
    requires forall k :: 0 <= k < |units| ==> Token(f.sp, later, units[k].1) == Some(units[k].0)
    ensures Listed(f, later, units, a)
  {
    var k :| 0 <= k < |units| && f.sp.unit(units[k].1) == f.sp.unit(a) && Token(f.sp, m, a) == Some(units[k].0);
    assert Token(f.sp, later, units[k].1) == Token(f.sp, later, a);
  }

  /** A stamp that passes its check after any history is as good as one just taken. */
  lemma PassingStampIsOk<M(!new)>(f: Fetcher<M>, w: World<M>, es: seq<Event>, items: seq<JitBatch.Item>, stamp: Stamp)
    requires StampOk(f, w.cache, w.mem, items, stamp)
    requires StampPasses(f, RunWorld(f, w, es).cache, RunWorld(f, w, es).mem, stamp)
    ensures StampOk(f, RunWorld(f, w, es).cache, RunWorld(f, w, es).mem, items, stamp)
  {
    hide LeadingHits, RunWorld, Listed;
    var v := RunWorld(f, w, es);
    StampVouches(f, w, es, items, stamp);
    forall j | 0 <= j < |items|
      ensures Listed(f, v.mem, stamp.units, items[j].pc) && Listed(f, v.mem, stamp.units, LastByte(items[j].pc, Normal))
    {
      ListedLater(f, w.mem, v.mem, stamp.units, items[j].pc);
      ListedLater(f, w.mem, v.mem, stamp.units, LastByte(items[j].pc, Normal));
    }
  }

  /** Dispatch: the whole prefix if the block's stamp passes, else what a validation counts. Both
      count the leading hits, and the stamp kept for the memory helper is good. */
  method CountHits<M(!new)>(f: Fetcher<M>, span: Span, c: Cache, m: M, items: seq<JitBatch.Item>, limit: nat,
                            stamp: Option<Stamp>, ghost w: World<M>, ghost es: seq<Event>)
    returns (count: nat, kept: Option<Stamp>)
    requires SpanOk(f.sp, span) && |w.cache.slots| > 0 && World(c, m) == RunWorld(f, w, es) && limit <= |items|
    requires stamp.Some? ==> StampOk(f, w.cache, w.mem, items, stamp.value)
    ensures |c.slots| > 0
    ensures count == if LeadingHits(f, c, m, items, 0) < limit then LeadingHits(f, c, m, items, 0) else limit
    ensures kept.Some? ==> StampOk(f, c, m, items, kept.value)
    ensures if stamp.Some? && StampPasses(f, c, m, stamp.value) then kept == stamp
            else kept.Some? <==> LeadingHits(f, c, m, items, 0) == |items| && Looks(span, items, |items|).count <= 2
  {
    if stamp.Some? && stamp.value.fills == c.fills && UnitsKept(f, m, stamp.value) {
      PassingStampIsOk(f, w, es, items, stamp.value);
      return limit, stamp;
    }
    count, kept := ValidateNativeBatch(f, span, c, m, items, limit);
  }

  // ---- a batch on a history of writes ----

  /** Bus state with its history: writes before the dispatch, writes of the batch, and whatever else
      the bus holds. */
  datatype Traced<!B> = Traced(before: seq<Write>, since: seq<Write>, rest: B)

  function MemoryOf<M, B>(f: Fetcher<M>, m: M, h: Traced<B>): M {
    After(f.sp, After(f.sp, m, h.before), h.since)
  }

  /** The instruction word in memory. */
  function CodeAt<M, B>(f: Fetcher<M>, m: M, h: Traced<B>, pc: Word): Instr {
    match Current(f, MemoryOf(f, m, h), pc, Normal)
    case N(i) => i
    case Sh(_) => Unknown
  }

  /** The stamp a dispatch keeps, as far as memory has got by then, is good. */
  ghost predicate StampsOk<M(!new)>(f: Fetcher<M>, c: Cache, m: M, items: seq<JitBatch.Item>,
                                    stamp: seq<Write> -> Option<Stamp>) {
    forall ws: seq<Write> :: stamp(ws).Some? ==> StampOk(f, c, After(f.sp, m, ws), items, stamp(ws).value)
  }

  predicate CodeKept<M, B>(f: Fetcher<M>, m: M, stamp: seq<Write> -> Option<Stamp>, h: Traced<B>) {
    stamp(h.before).Some? && UnitsKept(f, MemoryOf(f, m, h), stamp(h.before).value)
  }

  /** The machine around the batch: loads of timing-insensitive devices write nothing, the helper
      checks the units of the stamp, and dispatch counts the leading hits. */
  ghost predicate OnHistory<M(!new), B(!new), S(!new)>(
    f: Fetcher<M>, c: Cache, m: M, items: seq<JitBatch.Item>, stamp: seq<Write> -> Option<Stamp>,
    env: Platform<Traced<B>, S>, dev: JitBatch.Devices<Traced<B>>, x: JitCpu.Dispatch<Traced<B>>)
  {
    && Wired(env) && JitEmit.ExactAlu(env) && |c.slots| > 0
    && (forall h: Traced<B>, s: S, a: Word, w: Width :: dev.insensitive(a, w) ==>
          env.load(h, s, a, w).1.before == h.before && env.load(h, s, a, w).1.since == h.since)
    && (forall h: Traced<B> :: dev.codeKept(h) == CodeKept(f, m, stamp, h))
    && (forall h: Traced<B> :: x.hits(h) == LeadingHits(f, c, MemoryOf(f, m, h), items, 0))
  }

  /** Counted hits are the instructions in memory. */
  lemma HitsAreDecodes<M(!new)>(f: Fetcher<M>, c: Cache, m: M, items: seq<JitBatch.Item>, ws: seq<Write>, vs: seq<Write>, j: nat)
    requires CacheCoherent(f, c, m)
    requires var later := After(f.sp, After(f.sp, m, ws), vs); j < LeadingHits(f, c, later, items, 0)
    ensures Current(f, After(f.sp, After(f.sp, m, ws), vs), items[j].pc, Normal) == N(items[j].insn)
  {
    var later := After(f.sp, After(f.sp, m, ws), vs);
    WritesKeepCoherent(f, c, m, ws);
    WritesKeepCoherent(f, c, After(f.sp, m, ws), vs);
    assert ItemHit(f, c, later, items[j]);
    HitIsCurrent(f, c, later, items[j].pc, Normal);
  }

  /** Kept code units mean that the whole block is still a hit. */
  lemma KeptIsAllHits<M(!new)>(f: Fetcher<M>, c: Cache, m: M, items: seq<JitBatch.Item>, stamp: Stamp, vs: seq<Write>)
    requires StampOk(f, c, m, items, stamp) && UnitsKept(f, After(f.sp, m, vs), stamp)
    ensures LeadingHits(f, c, After(f.sp, m, vs), items, 0) == |items|
  {
    var w, es := World(c, m), [WriteEvent(vs)];
    assert es[..0] == [];
    assert RunWorld(f, w, es) == World(c, After(f.sp, m, vs));
    StampVouches(f, w, es, items, stamp);
  }

  /** Main result: on every history of writes by the batch and by other masters, the assumptions of
      `RunNativeIdleBatch` about code memory hold, because the cache is coherent and the kept stamps
      are good. */
  lemma StampsDischarge<M(!new), B(!new), S(!new)>(
    f: Fetcher<M>, c: Cache, m: M, items: seq<JitBatch.Item>, stamp: seq<Write> -> Option<Stamp>,
    env: Platform<Traced<B>, S>, dev: JitBatch.Devices<Traced<B>>, x: JitCpu.Dispatch<Traced<B>>)
    requires CacheCoherent(f, c, m) && StampsOk(f, c, m, items, stamp)
    requires OnHistory(f, c, m, items, stamp, env, dev, x)
    ensures var code := (h: Traced<B>, pc: Word) => CodeAt(f, m, h, pc);
            JitBatch.Coherent(env, dev, code, items) && JitCpu.HitsAreCurrent(x, code, items)
  {
    hide LeadingHits, CacheCoherent, Current, StampOk, After, UnitsKept, Wired, JitEmit.ExactAlu;
    var code := (h: Traced<B>, pc: Word) => CodeAt(f, m, h, pc);
    forall h: Traced<B>, k | dev.codeKept(h) && 0 <= k < |items| ensures code(h, items[k].pc) == items[k].insn {
      KeptIsAllHits(f, c, After(f.sp, m, h.before), items, stamp(h.before).value, h.since);
      HitsAreDecodes(f, c, m, items, h.before, h.since, k);
    }
    forall h: Traced<B> ensures x.hits(h) <= |items| && JitBatch.Current(code, items, h, 0, x.hits(h)) {
      forall j | 0 <= j < x.hits(h) ensures code(h, items[j].pc) == items[j].insn {
        HitsAreDecodes(f, c, m, items, h.before, h.since, j);
      }
    }
    forall h: Traced<B>, s: S, a: Word, w: Width, pc: Word | dev.insensitive(a, w)
      ensures code(env.load(h, s, a, w).1, pc) == code(h, pc)
    {
    }
  }
}
