/**
 The cached interpreter is the scalar CPU: whatever its decode cache holds, each instruction has the effect of
 one scalar instruction, takes the clocks of the same instruction in EX of the pipeline, and is followed by
 the interrupt that waits, if one may be taken.
 */
module CachedRefines {
  import opened Isa
  import opened Wrappers
  import opened CodeMemory
  import opened DecodeCache
  import opened CachedCpu
  import Bytes
  import JitBatch
  import PipelineTiming

  // ---- one instruction ----

  /** Decoding goes by the mode. */
  ghost predicate DecodesByMode<R(!new), M(!new), V(!new), S(!new)>(x: Cached<R, M, V, S>) {
    forall mode: Mode, word: Word :: x.decode(mode, word).N? <==> mode == Normal
  }

  /** The scalar CPU at `c`, with `insn` at its PC and the bus as `t`. */
  function ScalarStep<R, M, V, S>(x: Cached<R, M, V, S>, c: Core<S>, t: Traffic<R, M, V>, insn: Decoded)
    : State<Traffic<R, M, V>, S>
  {
    var code := x.env.(normal := (s: S, pc: Word) => if insn.N? then insn.insn else Unknown,
                       short := (s: S, pc: Word) => if insn.Sh? then insn.short else SUnknown);
    Step(code, State(c.reg, c.pc, c.mode, true, c.sys, t, 0, 0))
  }

  /** What an instruction leaves of core and bus: one scalar instruction; then the trap of a bus error it met,
      with its own PC as return address; then, unless the CPU has stopped, the interrupt that waits. */
  function Performed<R, M, V, S>(x: Cached<R, M, V, S>, c: Core<S>, t: Traffic<R, M, V>, insn: Decoded)
    : (Core<S>, Traffic<R, M, V>)
  {
    var s := ScalarStep(x, c, t, insn);
    var b := if s.mem.error then EnterException(x.env, s.(mem := s.mem.(error := false)), BusError, c.pc) else s;
    if b.running && c.irqPending && x.enabled(b.sys) then
      var (sys, reg) := x.irqTrap(b.sys, b.reg, c.irqNumber, b.pc, b.mode);
      (c.(reg := reg, pc := (0xFFFF_0100 + 4 * c.irqNumber) % 0x1_0000_0000, mode := Normal, running := true, sys := sys,
          phase := Fetching, irqPending := false), b.mem)
    else (c.(reg := b.reg, pc := b.pc, mode := b.mode, running := b.running, sys := b.sys, phase := Fetching), b.mem)
  }

  /** The counter and the program memory do not matter to an instruction. */
  lemma NormalIgnores<M, S>(env: Platform<M, S>, code: Platform<M, S>, s: State<M, S>, n: nat, i: Instr)
    requires code == env.(normal := code.normal, short := code.short)
    ensures ExecuteNormal(code, s.(executed := n), i) == ExecuteNormal(env, s, i).(executed := n)
  {
    hide ReadReg, SetReg, Plus, MergeLow, MergeHigh, Narrow;
  }

  lemma ShortIgnores<M, S>(env: Platform<M, S>, code: Platform<M, S>, s: State<M, S>, n: nat, i: ShortInstr)
    requires code == env.(normal := code.normal, short := code.short)
    ensures ExecuteShort(code, s.(executed := n), i) == ExecuteShort(env, s, i).(executed := n)
  {
    hide ReadReg, SetReg, Plus, Gpr;
  }

  lemma ScalarExecutes<R(!new), M(!new), V(!new), S(!new)>(x: Cached<R, M, V, S>, c: Core<S>, t: Traffic<R, M, V>, insn: Decoded)
    requires (insn.N? <==> c.mode == Normal) && x.env.check(c.sys, c.pc, if c.mode == Normal then 4 else 2, Fetch).None?
    ensures ScalarStep(x, c, t, insn) == Execute(x.env, StateOf(c, t), insn).(executed := 1)
  {
    hide ExecuteNormal, ExecuteShort;
    var code := x.env.(normal := (s: S, pc: Word) => if insn.N? then insn.insn else Unknown,
                       short := (s: S, pc: Word) => if insn.Sh? then insn.short else SUnknown);
    match insn {
      case N(i) => NormalIgnores(x.env, code, StateOf(c, t), 1, i);
      case Sh(i) => ShortIgnores(x.env, code, StateOf(c, t), 1, i);
    }
  }

  lemma CommitPerforms<R(!new), M(!new), V(!new), S(!new)>(x: Cached<R, M, V, S>, c: Core<S>, t: Traffic<R, M, V>, insn: Decoded)
    requires (insn.N? <==> c.mode == Normal) && x.env.check(c.sys, c.pc, if c.mode == Normal then 4 else 2, Fetch).None?
    ensures Commit(x, c, t, insn) == Performed(x, c, t, insn)
  {
    hide Execute, ScalarStep;
    ScalarExecutes(x, c, t, insn);
  }

  lemma SameEnv<R, M, V, S>(x: Cached<R, M, V, S>)
    ensures NoCache(x).env == x.env
  {
  }

  lemma UncachedPerforms<R(!new), M(!new), V(!new), S(!new)>(x: Cached<R, M, V, S>, c: Core<S>, t: Traffic<R, M, V>, insn: Decoded)
    requires (insn.N? <==> c.mode == Normal) && x.env.check(c.sys, c.pc, if c.mode == Normal then 4 else 2, Fetch).None?
    ensures Commit(NoCache(x), c, t, insn) == Performed(x, c, t, insn)
  {
    hide Commit, Performed, NoCache;
    SameCommit(x, c, c.slots, t, insn);
    CommitPerforms(x, c, t, insn);
  }

  /** The countdown of the interpreter is the occupancy of EX. */
  lemma LatencyIs(insn: Decoded)
    ensures 1 + Stall(insn) == PipelineTiming.Occupancy(Some(insn))
  {
  }

  /** The clocks of a CPU without a decode cache: a refused fetch traps; a multiply or divide is fetched and
      then counts down, so that it takes as many clocks as in EX of the pipeline, and any other instruction
      one; its last clock performs it. */
  lemma ClockPerforms<R(!new), M(!new), V(!new), S(!new)>(x: Cached<R, M, V, S>, c: Core<S>, t: Traffic<R, M, V>)
    requires DecodesByMode(x)
    requires c.phase.Busy? ==> (c.phase.insn.N? <==> c.mode == Normal)
                               && x.env.check(c.sys, c.pc, if c.mode == Normal then 4 else 2, Fetch).None?
    ensures var k, fault := Execution(NoCache(x), c, t), x.env.check(c.sys, c.pc, if c.mode == Normal then 4 else 2, Fetch);
            match c.phase
            case Busy(left, insn) =>
              if left > 1 then k.core == c.(phase := Busy(left - 1, insn)) && k.t == t && k.instructions == 0
              else (k.core, k.t) == Performed(x, c, t, insn) && k.instructions == 1
            case Fetching =>
              if fault.Some? then
                var s := EnterException(x.env, State(c.reg, c.pc, c.mode, true, c.sys, t, 0, 0), fault.value, c.pc);
                && k.core == c.(reg := s.reg, pc := s.pc, mode := Normal, running := s.running, sys := s.sys)
                && k.t == s.mem && k.instructions == 0
              else
                var (word, u) := x.env.load(t, c.sys, c.pc, if c.mode == Normal then 4 else 2);
                var insn := x.decode(c.mode, word);
                var n := PipelineTiming.Occupancy(Some(insn));
                if n > 1 then k.core == c.(phase := Busy(n - 1, insn)) && k.t == u && k.instructions == 0
                else (k.core, k.t) == Performed(x, c, u, insn) && k.instructions == 1
  {
    hide Commit, Performed, NoCache, FetchAndIssue, Stall, PipelineTiming.Occupancy;
    SameEnv(x);
    match c.phase {
      case Busy(left, insn) =>
        if left <= 1 {
          UncachedPerforms(x, c, t, insn);
        }
      case Fetching =>
        var (word, u) := x.env.load(t, c.sys, c.pc, Size(c.mode));
        NeverHits(x, c, t);
        LatencyIs(x.decode(c.mode, word));
        if x.env.check(c.sys, c.pc, Size(c.mode), Fetch).None? {
          UncachedPerforms(x, c, u, x.decode(c.mode, word));
        }
    }
  }

  // ---- without the decode cache ----

  /** The same CPU, but no memory has generations, so every fetch goes to the bus. */
  function NoCache<R, M, V, S>(x: Cached<R, M, V, S>): Cached<R, M, V, S> {
    x.(fetcher := x.fetcher.(sp := x.fetcher.sp.(unit := (a: Word) => None)))
  }

  ghost predicate SlotsOk<R(!new), M(!new), V(!new), S>(x: Cached<R, M, V, S>, slots: Slots, t: Traffic<R, M, V>) {
    CacheCoherent(x.fetcher, Cache(slots, 0, 0, 0), t)
  }

  /** Memory with generations is plain memory: fetching from it reads the bytes that are there and has no
      other effect. */
  ghost predicate PlainCode<R(!new), M(!new), V(!new), S(!new)>(x: Cached<R, M, V, S>) {
    && Coherent(x.fetcher.sp)
    && forall t: Traffic<R, M, V>, s: S, pc: Word, mode: Mode ::
         Token(x.fetcher.sp, t, pc).Some? && Token(x.fetcher.sp, t, LastByte(pc, mode)).Some? && !x.translating(s) ==>
           && x.env.load(t, s, pc, Size(mode)).1 == t
           && x.decode(mode, x.env.load(t, s, pc, Size(mode)).0) == Current(x.fetcher, t, pc, mode)
  }

  /** What generations track: a cache that was good before an access is good after it. */
  ghost predicate Tracked<R(!new), M(!new), V(!new), S(!new)>(x: Cached<R, M, V, S>) {
    && (forall slots: Slots, t: Traffic<R, M, V>, s: S, a: Word, w: Width {:trigger SlotsOk(x, slots, x.env.load(t, s, a, w).1)} ::
          SlotsOk(x, slots, t) ==> SlotsOk(x, slots, x.env.load(t, s, a, w).1))
    && (forall slots: Slots, t: Traffic<R, M, V>, s: S, a: Word, w: Width, v: Word {:trigger SlotsOk(x, slots, x.env.store(t, s, a, w, v))} ::
          SlotsOk(x, slots, t) ==> SlotsOk(x, slots, x.env.store(t, s, a, w, v)))
    && (forall slots: Slots, t: Traffic<R, M, V>, e: Exception {:trigger SlotsOk(x, slots, x.env.readVector(t, e).1)} ::
          SlotsOk(x, slots, t) ==> SlotsOk(x, slots, x.env.readVector(t, e).1))
    && (forall slots: Slots, t: Traffic<R, M, V> :: SlotsOk(x, slots, t) ==> SlotsOk(x, slots, t.(error := false)))
  }

  /** An instruction keeps a good cache good. */
  lemma ExecuteKeepsSlots<R(!new), M(!new), V(!new), S(!new)>(
    x: Cached<R, M, V, S>, s: State<Traffic<R, M, V>, S>, insn: Decoded, slots: Slots)
    requires Tracked(x) && SlotsOk(x, slots, s.mem)
    ensures SlotsOk(x, slots, Execute(x.env, s, insn).mem)
  {
    hide SlotsOk, ReadReg, SetReg, Plus, MergeLow, MergeHigh, Narrow, Gpr;
  }

  lemma TrapKeepsSlots<R(!new), M(!new), V(!new), S(!new)>(
    x: Cached<R, M, V, S>, s: State<Traffic<R, M, V>, S>, e: Exception, epc: Word, slots: Slots)
    requires Tracked(x) && SlotsOk(x, slots, s.mem)
    ensures SlotsOk(x, slots, EnterException(x.env, s, e, epc).mem)
  {
    hide SlotsOk;
  }

  lemma CommitKeepsSlots<R(!new), M(!new), V(!new), S(!new)>(
    x: Cached<R, M, V, S>, c: Core<S>, t: Traffic<R, M, V>, insn: Decoded)
    requires Tracked(x) && SlotsOk(x, c.slots, t)
    ensures Commit(x, c, t, insn).0.slots == c.slots && SlotsOk(x, c.slots, Commit(x, c, t, insn).1)
  {
    hide SlotsOk, Execute, EnterException;
    ExecuteKeepsSlots(x, StateOf(c, t), insn, c.slots);
    var s := Execute(x.env, StateOf(c, t), insn);
    assert SlotsOk(x, c.slots, s.mem.(error := false));
    TrapKeepsSlots(x, s.(mem := s.mem.(error := false)), BusError, c.pc, c.slots);
  }

  /** Reading with no other master about gives the bytes that are there. */
  lemma {:induction false} QuietRead<M>(sp: Space<M>, m: M, pc: Word, n: nat)
    ensures ReadBytes(sp, m, pc, n, (k: nat) => []) == (m, seq<Bytes.Byte>(n, (k: nat) => sp.peek(m, Plus(pc, k))))
  {
    if n == 0 {
    } else {
      QuietRead(sp, m, pc, n - 1);
      var bytes := seq<Bytes.Byte>(n, (k: nat) => sp.peek(m, Plus(pc, k)));
      assert bytes == seq<Bytes.Byte>(n - 1, (k: nat) => sp.peek(m, Plus(pc, k))) + [sp.peek(m, Plus(pc, n - 1))];
    }
  }

  /** The decode of the bytes that are there may be kept with their tokens. */
  lemma CurrentVouches<M(!new)>(f: Fetcher<M>, m: M, e: Entry)
    requires Coherent(f.sp) && TokensAre(f, m, e) && e.insn == Current(f, m, e.pc, e.mode)
    ensures Vouches(f, e, m)
  {
    hide Vouches, TokensAre, Coherent;
    QuietRead(f.sp, m, e.pc, Size(e.mode));
    FillVouches(f, m, e.pc, e.mode, (k: nat) => [], e);
  }

  lemma FillIsOk<R(!new), M(!new), V(!new), S(!new)>(x: Cached<R, M, V, S>, c: Core<S>, t: Traffic<R, M, V>, e: Entry)
    requires Coherent(x.fetcher.sp) && SlotsOk(x, c.slots, t)
    requires TokensAre(x.fetcher, t, e) && e.insn == Current(x.fetcher, t, e.pc, e.mode)
    ensures SlotsOk(x, c.slots[SlotOf(e.pc, |c.slots|) := Some(e)], t)
  {
    hide Vouches, TokensAre, Coherent, Current, SlotOf;
    CurrentVouches(x.fetcher, t, e);
  }

  /** One clock with a good cache is one clock without any, but for what the cache holds, and leaves it good. */
  ghost predicate Invisible<R(!new), M(!new), V(!new), S(!new)>(
    x: Cached<R, M, V, S>, k: CachedCpu.Clock<R, M, V, S>, u: CachedCpu.Clock<R, M, V, S>)
  {
    k.core == u.core.(slots := k.core.slots) && k.t == u.t && k.instructions == u.instructions && SlotsOk(x, k.core.slots, k.t)
  }

  /** Waking up does not look at the cache. */
  lemma SameAccept<R, M, V, S>(x: Cached<R, M, V, S>, c: Core<S>, slots: Slots)
    ensures Wakes(x, c.(slots := slots)) == Wakes(NoCache(x), c)
    ensures Accept(x, c.(slots := slots)) == Accept(NoCache(x), c).(slots := slots) && Accept(NoCache(x), c).slots == c.slots
  {
  }

  lemma SameCommitted<R, M, V, S>(x: Cached<R, M, V, S>, c: Core<S>, slots: Slots, t: Traffic<R, M, V>, insn: Decoded)
    ensures Committed(x, c.(slots := slots), t, insn) == Committed(NoCache(x), c, t, insn)
  {
    hide Execute, EnterException;
  }

  /** The same commit, with and without slots. */
  lemma SameCommit<R, M, V, S>(x: Cached<R, M, V, S>, c: Core<S>, slots: Slots, t: Traffic<R, M, V>, insn: Decoded)
    ensures var (d, u), (e, v) := Commit(x, c.(slots := slots), t, insn), Commit(NoCache(x), c, t, insn);
            d == e.(slots := slots) && u == v && e.slots == c.slots
  {
    hide Committed, Accept, NoCache;
    SameCommitted(x, c, slots, t, insn);
    SameAccept(x, WithState(c, Committed(NoCache(x), c, t, insn)), slots);
  }

  lemma SameIssue<R(!new), M(!new), V(!new), S(!new)>(
    x: Cached<R, M, V, S>, c: Core<S>, slots: Slots, t: Traffic<R, M, V>, insn: Decoded, fills: nat, hits: nat)
    requires Tracked(x) && SlotsOk(x, slots, t)
    ensures Invisible(x, Issue(x, c.(slots := slots), t, insn, fills, hits), Issue(NoCache(x), c, t, insn, 0, 0))
  {
    hide Commit, NoCache, SlotsOk, Tracked;
    if Stall(insn) == 0 {
      SameCommit(x, c, slots, t, insn);
      CommitKeepsSlots(x, c.(slots := slots), t, insn);
    }
  }

  lemma NeverHits<R, M, V, S>(x: Cached<R, M, V, S>, c: Core<S>, t: Traffic<R, M, V>)
    ensures var (word, u) := x.env.load(t, c.sys, c.pc, Size(c.mode));
            FetchAndIssue(NoCache(x), c, t) == Issue(NoCache(x), c, u, x.decode(c.mode, word), 0, 0)
  {
    hide Issue;
  }

  lemma SameFetch<R(!new), M(!new), V(!new), S(!new)>(x: Cached<R, M, V, S>, c: Core<S>, slots: Slots, t: Traffic<R, M, V>)
    requires PlainCode(x) && Tracked(x) && SlotsOk(x, slots, t)
    ensures Invisible(x, FetchAndIssue(x, c.(slots := slots), t), FetchAndIssue(NoCache(x), c, t))
  {
    hide Issue, NoCache, Tracked, Coherent, Current, IsHit, SlotOf, Invisible;
    NeverHits(x, c, t);
    var d := c.(slots := slots);
    var first, last := Token(x.fetcher.sp, t, c.pc), Token(x.fetcher.sp, t, LastByte(c.pc, c.mode));
    var (word, u) := x.env.load(t, c.sys, c.pc, Size(c.mode));
    var insn := x.decode(c.mode, word);
    if !x.translating(c.sys) && IsHit(x.fetcher, CacheOf(d), t, c.pc, c.mode) {
      HitTokens(x, d, t);
      HitIsCurrent(x.fetcher, CacheOf(d), t, c.pc, c.mode);
      SameIssue(x, c, slots, t, insn, 0, 1);
    } else if x.translating(c.sys) || first.None? || last.None? {
      LoadKeeps(x, d, t);
      SameIssue(x, c, slots, u, insn, 0, 0);
    } else {
      var e := Entry(c.pc, c.mode, first.value, last.value, insn);
      FillIsOk(x, d, t, e);
      SameIssue(x, c, slots[SlotOf(c.pc, |slots|) := Some(e)], t, insn, 1, 0);
    }
  }

  lemma HitTokens<R, M, V, S>(x: Cached<R, M, V, S>, c: Core<S>, t: Traffic<R, M, V>)
    requires IsHit(x.fetcher, CacheOf(c), t, c.pc, c.mode)
    ensures c.slots[SlotOf(c.pc, |c.slots|)].Some?
    ensures Token(x.fetcher.sp, t, c.pc).Some? && Token(x.fetcher.sp, t, LastByte(c.pc, c.mode)).Some?
  {
  }

  lemma LoadKeeps<R(!new), M(!new), V(!new), S(!new)>(x: Cached<R, M, V, S>, c: Core<S>, t: Traffic<R, M, V>)
    requires Tracked(x) && SlotsOk(x, c.slots, t)
    ensures SlotsOk(x, c.slots, x.env.load(t, c.sys, c.pc, Size(c.mode)).1)
  {
  }

  lemma SameBusy<R(!new), M(!new), V(!new), S(!new)>(
    x: Cached<R, M, V, S>, c: Core<S>, slots: Slots, t: Traffic<R, M, V>, left: nat, insn: Decoded)
    requires Tracked(x) && SlotsOk(x, slots, t) && c.phase == Busy(left, insn)
    ensures Invisible(x, Execution(x, c.(slots := slots), t), Execution(NoCache(x), c, t))
  {
    hide Commit, NoCache, SlotsOk, Tracked;
    if left <= 1 {
      SameCommit(x, c, slots, t, insn);
      CommitKeepsSlots(x, c.(slots := slots), t, insn);
    }
  }

  lemma SameTrap<R(!new), M(!new), V(!new), S(!new)>(
    x: Cached<R, M, V, S>, c: Core<S>, slots: Slots, t: Traffic<R, M, V>, e: Exception)
    requires Tracked(x) && SlotsOk(x, slots, t) && c.phase == Fetching
    requires x.env.check(c.sys, c.pc, Size(c.mode), Fetch) == Some(e)
    ensures Invisible(x, Execution(x, c.(slots := slots), t), Execution(NoCache(x), c, t))
  {
    hide SlotsOk, Tracked, EnterException;
    TrapKeepsSlots(x, StateOf(c, t), e, c.pc, slots);
  }

  /** The decode cache is invisible in every clock. */
  lemma CycleNeedsNoCache<R(!new), M(!new), V(!new), S(!new)>(
    x: Cached<R, M, V, S>, c: Core<S>, slots: Slots, t: Traffic<R, M, V>)
    requires PlainCode(x) && Tracked(x) && SlotsOk(x, slots, t)
    ensures Invisible(x, Execution(x, c.(slots := slots), t), Execution(NoCache(x), c, t))
  {
    hide FetchAndIssue, SlotsOk, PlainCode, Tracked, EnterException, Invisible, Commit;
    match c.phase {
      case Busy(left, insn) => SameBusy(x, c, slots, t, left, insn);
      case Fetching =>
        match x.env.check(c.sys, c.pc, Size(c.mode), Fetch) {
          case Some(e) => SameTrap(x, c, slots, t, e);
          case None => SameFetch(x, c, slots, t);
        }
    }
  }

  // ---- runs ----

  /** What happens between two clocks: other masters change memory, and devices show another view. */
  datatype Between<!R, !V> = Between(change: R -> R, view: V)

  /** A core with its memory, and what it has done to devices and counted. */
  datatype Machine<!R, !M, !S> = Machine(core: Core<S>, memory: R, accesses: seq<M -> M>, instructions: nat)

  /** One clock: the interrupt input is sampled, and a halted CPU only waits for it. */
  function RunClock<R, M, V, S>(x: Cached<R, M, V, S>, w: Machine<R, M, S>, b: Between<R, V>): Machine<R, M, S> {
    var c, r := Sample(x, w.core, b.view), b.change(w.memory);
    if !c.running && !Wakes(x, c) then w.(core := c, memory := r)
    else
      var y := CycleOf(x, c, r, b.view);
      Machine(y.core, y.memory, w.accesses + [y.access], w.instructions + y.instructions)
  }

  function RunClocks<R, M, V, S>(x: Cached<R, M, V, S>, w: Machine<R, M, S>, bs: seq<Between<R, V>>): Machine<R, M, S> {
    if bs == [] then w else RunClock(x, RunClocks(x, w, bs[..|bs| - 1]), bs[|bs| - 1])
  }

  /** The writes of other masters are tracked as well. */
  ghost predicate TracksOthers<R(!new), M(!new), V(!new), S(!new)>(x: Cached<R, M, V, S>, b: Between<R, V>) {
    forall slots: Slots, t: Traffic<R, M, V>, error: bool :: SlotsOk(x, slots, t) ==> SlotsOk(x, slots, Begin(b, t.memory, error))
  }

  function Begin<R, M, V>(b: Between<R, V>, memory: R, error: bool): Traffic<R, M, V> {
    Traffic(b.change(memory), b.view, (m: M) => m, error, 0)
  }

  /** A machine whose cache is good for its memory. */
  ghost predicate Good<R(!new), M(!new), V(!new), S(!new)>(x: Cached<R, M, V, S>, w: Machine<R, M, S>) {
    exists t: Traffic<R, M, V> :: t.memory == w.memory && SlotsOk(x, w.core.slots, t)
  }

  /** The two machines differ at most in what the cache holds. */
  ghost predicate Alike<R, M, S>(v: Machine<R, M, S>, w: Machine<R, M, S>) {
    v.core == w.core.(slots := v.core.slots) && v.memory == w.memory && v.accesses == w.accesses && v.instructions == w.instructions
  }

  lemma SameSample<R, M, V, S>(x: Cached<R, M, V, S>, c: Core<S>, slots: Slots, v: V)
    ensures Sample(x, c.(slots := slots), v) == Sample(NoCache(x), c, v).(slots := slots)
  {
  }

  lemma ClockNeedsNoCache<R(!new), M(!new), V(!new), S(!new)>(
    x: Cached<R, M, V, S>, v: Machine<R, M, S>, w: Machine<R, M, S>, b: Between<R, V>)
    requires PlainCode(x) && Tracked(x) && TracksOthers(x, b) && Good(x, v) && Alike(v, w)
    ensures Good(x, RunClock(x, v, b)) && Alike(RunClock(x, v, b), RunClock(NoCache(x), w, b))
  {
    hide SlotsOk, PlainCode, Tracked, Execution, Sample, Wakes, Accept, NoCache;
    SameSample(x, w.core, v.core.slots, b.view);
    var t: Traffic<R, M, V> :| t.memory == v.memory && SlotsOk(x, v.core.slots, t);
    var c := Sample(NoCache(x), w.core, b.view);
    SameAccept(x, c, v.core.slots);
    var u := Begin(b, t.memory, c.error);
    assert SlotsOk(x, v.core.slots, u);
    CycleNeedsNoCache(x, if c.running then c else Accept(NoCache(x), c), v.core.slots, u);
  }

  /** Main result: over every run the decode cache is invisible. The core, its memory, what it does to the
      devices and in which order, and the instruction count are those of a CPU that fetches every
      instruction from the bus, whatever other masters write in between. */
  lemma {:induction false} CacheIsInvisible<R(!new), M(!new), V(!new), S(!new)>(
    x: Cached<R, M, V, S>, w: Machine<R, M, S>, bs: seq<Between<R, V>>)
    requires PlainCode(x) && Tracked(x) && Good(x, w) && forall k :: 0 <= k < |bs| ==> TracksOthers(x, bs[k])
    ensures Good(x, RunClocks(x, w, bs)) && Alike(RunClocks(x, w, bs), RunClocks(NoCache(x), w, bs))
    decreases |bs|
  {
    hide PlainCode, Tracked, Good, Alike, RunClock, NoCache;
    if bs == [] {
      IsAlike(w);
    } else {
      var n := |bs| - 1;
      CacheIsInvisible(x, w, bs[..n]);
      ClockNeedsNoCache(x, RunClocks(x, w, bs[..n]), RunClocks(NoCache(x), w, bs[..n]), bs[n]);
    }
  }

  lemma IsAlike<R, M, S>(w: Machine<R, M, S>)
    ensures Alike(w, w)
  {
  }

  // ---- the interrupt input ----

  /** A request is latched at a rising edge of the line, with its number, and stays until it is taken. */
  lemma EdgeLatches<R, M, V, S>(x: Cached<R, M, V, S>, c: Core<S>, v: V)
    ensures var d, high := Sample(x, c, v), c.external || x.output(v).0;
            && d.irqLine == high && d == c.(irqPending := d.irqPending, irqNumber := d.irqNumber, irqLine := high, line := d.line, number := d.number)
            && (d.irqPending <==> c.irqPending || (high && !c.irqLine))
            && (high && !c.irqLine ==> d.irqNumber == (if c.external then c.externalNumber % 16 else x.output(v).1 % 16))
            && (!(high && !c.irqLine) ==> d.irqNumber == c.irqNumber)
  {
  }

  /** A loop may be recognised wherever a running CPU is about to fetch, and nowhere else. */
  lemma HeadsAreFetches<R, M, V, S>(x: Cached<R, M, V, S>, c: Core<S>)
    ensures CpuOf(x).head(c) <==> c.running && c.phase.Fetching?
    ensures CpuOf(x).pc(c) == c.pc && CpuOf(x).halted(c) == !c.running
    ensures CpuOf(x).wakes(c) <==> c.irqPending && x.enabled(c.sys)
  {
  }

  /** A halted CPU with a request it may take wakes up at the handler, in Normal mode, and the
      cycle goes on from there. */
  lemma WakesAtHandler<R, M, V, S>(x: Cached<R, M, V, S>, c: Core<S>, r: R, v: V)
    requires !c.running && c.irqPending && x.enabled(c.sys)
    ensures var (sys, reg) := x.irqTrap(c.sys, c.reg, c.irqNumber, c.pc, c.mode);
            CycleOf(x, c, r, v)
            == CycleOf(x, c.(sys := sys, reg := reg, pc := (0xFFFF_0100 + 4 * c.irqNumber) % 0x1_0000_0000, mode := Normal,
                             running := true, phase := Fetching, irqPending := false), r, v)
  {
    hide Execution;
  }

  // ---- the compiled blocks ----

  /** A native batch is charged what the interpreter takes for its instructions, clock by clock. */
  lemma {:induction false} BatchCostsClocks(items: seq<JitBatch.Item>, n: nat)
    requires n <= |items|
    ensures JitBatch.CycleSum(items, n) == Clocks(items, n)
  {
    if n == 0 {
    } else {
      BatchCostsClocks(items, n - 1);
      LatencyIs(N(items[n - 1].insn));
    }
  }

  /** The clocks of the first `n` instructions. */
  function Clocks(items: seq<JitBatch.Item>, n: nat): nat
    requires n <= |items|
  {
    if n == 0 then 0 else Clocks(items, n - 1) + PipelineTiming.Occupancy(Some(N(items[n - 1].insn)))
  }
}
