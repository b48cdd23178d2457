/**
 The cached interpreter's clock: fetch through the decode cache, multiply and divide stalls, commit,
 and the interrupt input. It is a CPU whose spin loops may be fast-forwarded.
 */
module CachedCpu {
  import opened Isa
  import opened Wrappers
  import opened CodeMemory
  import opened DecodeCache
  import BusQuiet
  import SpinLoop
  import SpinSkip

  const IRQ_VECTOR_BASE: Word := 0xFFFF_0100

  /** What one cycle does outside the core, built up by its bus accesses: memory, the view its reads
      have of the devices, the effect on the devices, a latched bus error, and the count of accesses
      with effects. */
  datatype Traffic<!R, !M, !V> = Traffic(memory: R, view: V, access: M -> M, error: bool, effects: nat)

  /** `Busy` is a multiply or divide with that many cycles to go. */
  datatype Phase = Fetching | Busy(left: nat, insn: Decoded)

  type Slots = s: seq<Option<Entry>> | |s| > 0 witness [None]

  /** What decides the next cycle. `irqLine` is the level seen last, `line` and `number` the
      interrupt controller's output, `external` the other source of requests; `error` is a bus error
      that has not trapped yet. */
  datatype Core<!S> = Core(
    reg: Regs, pc: Word, mode: Mode, running: bool, sys: S, phase: Phase, slots: Slots,
    irqPending: bool, irqNumber: nat, irqLine: bool, line: bool, number: nat, external: bool, externalNumber: nat, error: bool)

  /** The instruction set's platform over `Traffic`, and what only the clock needs. */
  datatype Cached<!R, !M, !V, !S> = Cached(
    env: Platform<Traffic<R, M, V>, S>, fetcher: Fetcher<Traffic<R, M, V>>, decode: (Mode, Word) -> Decoded,
    translating: S -> bool, enabled: S -> bool, irqTrap: (S, Regs, nat, Word, Mode) -> (S, Regs), output: V -> (bool, nat))

  /** `refresh_irq_input`, behind a look at the interrupt controller: a rising edge latches a request. */
  function Sample<R, M, V, S>(x: Cached<R, M, V, S>, c: Core<S>, v: V): Core<S> {
    var (valid, number) := x.output(v);
    var level := c.external || valid;
    var d := if level && !c.irqLine
             then c.(irqPending := true, irqNumber := (if c.external then c.externalNumber else number) % 16) else c;
    d.(line := valid, number := number, irqLine := level)
  }

  predicate Wakes<R, M, V, S>(x: Cached<R, M, V, S>, c: Core<S>) {
    x.enabled(c.sys) && c.irqPending
  }

  /** `accept_pending_irq`. */
  function Accept<R, M, V, S>(x: Cached<R, M, V, S>, c: Core<S>): Core<S> {
    if !Wakes(x, c) then c
    else
      var (sys, reg) := x.irqTrap(c.sys, c.reg, c.irqNumber, c.pc, c.mode);
      c.(sys := sys, reg := reg, pc := Plus(IRQ_VECTOR_BASE, c.irqNumber * 4), mode := Normal, running := true,
         phase := Fetching, irqPending := false)
  }

  /** What a cycle leaves: the new core, its traffic, and what it counts. */
  datatype Clock<!R, !M, !V, !S> = Clock(core: Core<S>, t: Traffic<R, M, V>, fills: nat, instructions: nat, hits: nat)

  function StateOf<R, M, V, S>(c: Core<S>, t: Traffic<R, M, V>): State<Traffic<R, M, V>, S> {
    State(c.reg, c.pc, c.mode, true, c.sys, t, 0, 0)
  }

  function WithState<R, M, V, S>(c: Core<S>, s: State<Traffic<R, M, V>, S>): Core<S> {
    c.(reg := s.reg, pc := s.pc, mode := s.mode, running := s.running, sys := s.sys, phase := Fetching)
  }

  function Execute<M, S>(env: Platform<M, S>, s: State<M, S>, insn: Decoded): State<M, S> {
    match insn
    case N(i) => ExecuteNormal(env, s, i)
    case Sh(i) => ExecuteShort(env, s, i)
  }

  /** `commit_pending`: a bus error traps behind the instruction. */
  function Committed<R, M, V, S>(x: Cached<R, M, V, S>, c: Core<S>, t: Traffic<R, M, V>, insn: Decoded)
    : State<Traffic<R, M, V>, S>
  {
    var s := Execute(x.env, StateOf(c, t), insn);
    if s.mem.error then EnterException(x.env, s.(mem := s.mem.(error := false)), BusError, c.pc) else s
  }

  /** `commit_cached_instruction`: behind an instruction that did not stop the CPU, a waiting
      interrupt is taken. */
  function Commit<R, M, V, S>(x: Cached<R, M, V, S>, c: Core<S>, t: Traffic<R, M, V>, insn: Decoded)
    : (Core<S>, Traffic<R, M, V>)
  {
    var s := Committed(x, c, t, insn);
    var d := WithState(c, s);
    (if s.running then Accept(x, d) else d, s.mem)
  }

  /** EX cycles that remain behind the issue of a multiply or divide. */
  function Stall(insn: Decoded): nat {
    if insn.N? && insn.insn.Alu? then
      match insn.insn.op
      case Mul => 2
      case Mulh => 2
      case Div => 15
      case Divu => 15
      case Mod => 15
      case _ => 0
    else 0
  }

  /** `issue_cached_instruction`. */
  function Issue<R, M, V, S>(x: Cached<R, M, V, S>, c: Core<S>, t: Traffic<R, M, V>, insn: Decoded, fills: nat, hits: nat)
    : Clock<R, M, V, S>
  {
    if Stall(insn) > 0 then Clock(c.(phase := Busy(Stall(insn), insn)), t, fills, 0, hits)
    else
      var (d, u) := Commit(x, c, t, insn);
      Clock(d, u, fills, 1, hits)
  }

  function CacheOf<S>(c: Core<S>): Cache {
    Cache(c.slots, 0, 0, 0)
  }

  /** `fetch_cached_instruction` and its issue. A translated fetch skips the cache, and so does one
      from memory without generations; any other miss fills a slot. */
  function FetchAndIssue<R, M, V, S>(x: Cached<R, M, V, S>, c: Core<S>, t: Traffic<R, M, V>): Clock<R, M, V, S>
  {
    var first, last := Token(x.fetcher.sp, t, c.pc), Token(x.fetcher.sp, t, LastByte(c.pc, c.mode));
    if !x.translating(c.sys) && IsHit(x.fetcher, CacheOf(c), t, c.pc, c.mode) then
      Issue(x, c, t, c.slots[SlotOf(c.pc, |c.slots|)].value.insn, 0, 1)
    else
      var (word, u) := x.env.load(t, c.sys, c.pc, Size(c.mode));
      var insn := x.decode(c.mode, word);
      if x.translating(c.sys) || first.None? || last.None? then Issue(x, c, u, insn, 0, 0)
      else
        var slots := c.slots[SlotOf(c.pc, |c.slots|) := Some(Entry(c.pc, c.mode, first.value, last.value, insn))];
        Issue(x, c.(slots := slots), u, insn, 1, 0)
  }

  /** `execute_cached_cycle`. */
  function Execution<R, M, V, S>(x: Cached<R, M, V, S>, c: Core<S>, t: Traffic<R, M, V>): Clock<R, M, V, S> {
    match c.phase
    case Busy(left, insn) =>
      if left > 1 then Clock(c.(phase := Busy(left - 1, insn)), t, 0, 0, 0)
      else
        var (d, u) := Commit(x, c, t, insn);
        Clock(d, u, 0, 1, 0)
    case Fetching =>
      match x.env.check(c.sys, c.pc, Size(c.mode), Fetch)
      case Some(e) =>
        var s := EnterException(x.env, StateOf(c, t), e, c.pc);
        Clock(WithState(c, s), s.mem, 0, 0, 0)
      case None => FetchAndIssue(x, c, t)
  }

  /** A cycle that is not idle: a halted CPU first wakes up. */
  function CycleOf<R, M, V, S>(x: Cached<R, M, V, S>, c: Core<S>, r: R, v: V): SpinLoop.Cycle<Core<S>, R, M> {
    var k := Execution(x, if c.running then c else Accept(x, c), Traffic(r, v, (m: M) => m, c.error, 0));
    SpinLoop.Cycle(k.core.(error := k.t.error), k.t.memory, k.t.access, k.t.effects, k.fills, k.instructions, k.hits)
  }

  function CpuOf<R, M, V, S>(x: Cached<R, M, V, S>): SpinLoop.Cpu<Core<S>, R, M, V> {
    SpinLoop.Cpu(
      (c: Core<S>) => !c.running,
      (c: Core<S>) => c.running && c.phase == Fetching,
      (c: Core<S>) => c.pc,
      (c: Core<S>) => Wakes(x, c),
      (c: Core<S>) => !Wakes(x, c),
      (c: Core<S>, v: V) => Sample(x, c, v),
      (c: Core<S>, r: R, v: V) => CycleOf(x, c, r, v))
  }

  // ---- what the surroundings promise ----

  /** A later state of a cycle's traffic: more effects, or nothing has happened. */
  ghost predicate Grows<R, M, V>(t: Traffic<R, M, V>, u: Traffic<R, M, V>) {
    t.effects < u.effects || u == t
  }

  /** Every bus access that is not counted is a read without effects. */
  ghost predicate Counted<R(!new), M(!new), V(!new), S(!new)>(x: Cached<R, M, V, S>) {
    && (forall t: Traffic<R, M, V>, s: S, a: Word, w: Width :: Grows(t, x.env.load(t, s, a, w).1))
    && (forall t: Traffic<R, M, V>, s: S, a: Word, w: Width, v: Word :: Grows(t, x.env.store(t, s, a, w, v)))
    && (forall t: Traffic<R, M, V>, e: Exception :: Grows(t, x.env.readVector(t, e).1))
  }

  /** Traps disable interrupts. */
  ghost predicate Masks<R(!new), M(!new), V(!new), S(!new)>(x: Cached<R, M, V, S>) {
    && (forall s: S, r: Regs, e: Exception, pc: Word, m: Mode :: !x.enabled(x.env.trap(s, r, e, pc, m).0))
    && (forall s: S, r: Regs, n: nat, pc: Word, m: Mode :: !x.enabled(x.irqTrap(s, r, n, pc, m).0))
  }

  // ---- it may be fast-forwarded ----

  /** An instruction's accesses are counted, and it stops the CPU only as HALT, which leaves the
      privilege state alone, or by a trap, which disables interrupts. */
  lemma ExecuteCounts<R(!new), M(!new), V(!new), S(!new)>(
    x: Cached<R, M, V, S>, s: State<Traffic<R, M, V>, S>, insn: Decoded)
    requires Counted(x) && Masks(x) && s.running
    ensures var u := Execute(x.env, s, insn);
            Grows(s.mem, u.mem) && (!u.running ==> u.sys == s.sys || !x.enabled(u.sys))
  {
  }

  /** The lines are sampled, not driven, by the CPU. What it counts no effect for leaves traffic
      alone, except that a bus error traps, and no interrupt waits that did not wait before. */
  ghost predicate Kept<R, M, V, S>(x: Cached<R, M, V, S>, c: Core<S>, t: Traffic<R, M, V>, d: Core<S>, u: Traffic<R, M, V>) {
    && d.irqLine == c.irqLine && d.line == c.line && d.number == c.number
    && d.external == c.external && d.externalNumber == c.externalNumber
    && (t.effects < u.effects || u == t.(error := u.error))
    && (!Wakes(x, c) ==> !Wakes(x, d))
  }

  lemma TrapKeeps<R(!new), M(!new), V(!new), S(!new)>(
    x: Cached<R, M, V, S>, c: Core<S>, s: State<Traffic<R, M, V>, S>, e: Exception, pc: Word)
    requires Counted(x) && Masks(x)
    ensures var u := EnterException(x.env, s, e, pc); Kept(x, c, s.mem, WithState(c, u), u.mem)
  {
    assert Grows(s.mem, x.env.readVector(s.mem, e).1);
  }

  lemma CommitKeeps<R(!new), M(!new), V(!new), S(!new)>(x: Cached<R, M, V, S>, c: Core<S>, t: Traffic<R, M, V>, insn: Decoded)
    requires Counted(x) && Masks(x)
    ensures Kept(x, c, t, Commit(x, c, t, insn).0, Commit(x, c, t, insn).1)
  {
    hide Execute, EnterException;
    ExecuteCounts(x, StateOf(c, t), insn);
    var s := Execute(x.env, StateOf(c, t), insn);
    TrapKeeps(x, c, s.(mem := s.mem.(error := false)), BusError, c.pc);
  }

  lemma IssueKeeps<R(!new), M(!new), V(!new), S(!new)>(
    x: Cached<R, M, V, S>, c: Core<S>, t: Traffic<R, M, V>, insn: Decoded, fills: nat, hits: nat)
    requires Counted(x) && Masks(x)
    ensures Kept(x, c, t, Issue(x, c, t, insn, fills, hits).core, Issue(x, c, t, insn, fills, hits).t)
  {
    hide Commit;
    CommitKeeps(x, c, t, insn);
  }

  lemma FetchKeeps<R(!new), M(!new), V(!new), S(!new)>(x: Cached<R, M, V, S>, c: Core<S>, t: Traffic<R, M, V>)
    requires Counted(x) && Masks(x)
    ensures Kept(x, c, t, FetchAndIssue(x, c, t).core, FetchAndIssue(x, c, t).t)
  {
    hide Issue;
    var first, last := Token(x.fetcher.sp, t, c.pc), Token(x.fetcher.sp, t, LastByte(c.pc, c.mode));
    var k := SlotOf(c.pc, |c.slots|);
    if !x.translating(c.sys) && IsHit(x.fetcher, CacheOf(c), t, c.pc, c.mode) {
      IssueKeeps(x, c, t, c.slots[k].value.insn, 0, 1);
    } else {
      var (word, u) := x.env.load(t, c.sys, c.pc, Size(c.mode));
      assert Grows(t, u);
      var insn := x.decode(c.mode, word);
      if x.translating(c.sys) || first.None? || last.None? {
        IssueKeeps(x, c, u, insn, 0, 0);
      } else {
        var slots := c.slots[k := Some(Entry(c.pc, c.mode, first.value, last.value, insn))];
        IssueKeeps(x, c.(slots := slots), u, insn, 1, 0);
      }
    }
  }

  lemma ExecutionKeeps<R(!new), M(!new), V(!new), S(!new)>(x: Cached<R, M, V, S>, c: Core<S>, t: Traffic<R, M, V>)
    requires Counted(x) && Masks(x)
    ensures Kept(x, c, t, Execution(x, c, t).core, Execution(x, c, t).t)
  {
    hide Commit, FetchAndIssue, EnterException;
    match c.phase {
      case Busy(left, insn) => CommitKeeps(x, c, t, insn);
      case Fetching =>
        FetchKeeps(x, c, t);
        var fault := x.env.check(c.sys, c.pc, Size(c.mode), Fetch);
        if fault.Some? {
          TrapKeeps(x, c, StateOf(c, t), fault.value, c.pc);
        }
    }
  }

  /** A cycle that counts no effect. */
  lemma CycleIsHarmless<R(!new), M(!new), V(!new), S(!new)>(x: Cached<R, M, V, S>, c: Core<S>, r: R, v: V)
    requires Counted(x) && Masks(x) && CycleOf(x, c, r, v).effects == 0
    ensures SpinLoop.Harmless(CpuOf(x), c, r, v, CycleOf(x, c, r, v))
  {
    hide Execution;
    ExecutionKeeps(x, if c.running then c else Accept(x, c), Traffic(r, v, (m: M) => m, c.error, 0));
  }

  /** Main result: the clock of the cached interpreter is a CPU as fast-forwarding needs it. */
  lemma CachedIsExact<R(!new), M(!new), V(!new), S(!new)>(x: Cached<R, M, V, S>)
    requires Counted(x) && Masks(x)
    ensures SpinLoop.Exact(CpuOf(x))
  {
    hide CycleOf, SpinLoop.Harmless;
    var cpu := CpuOf(x);
    forall c: Core<S>, r: R, v: V | cpu.cycle(c, r, v).effects == 0
      ensures SpinLoop.Harmless(cpu, c, r, v, cpu.cycle(c, r, v))
    {
      CycleIsHarmless(x, c, r, v);
    }
  }

  /** So on every bus that keeps its contract, the cached interpreter's loop may be fast-forwarded. */
  lemma CachedLoopIsDeterministic<R(!new), P(!new), K(!new), D(!new), T(!new), S(!new)>(
    x: Cached<R, BusQuiet.Devices<P, K, D>, BusQuiet.View<K, T>, S>,
    loop: SpinLoop.Loop<Core<S>, R, P, K, D, T>)
    requires Counted(x) && Masks(x) && loop.cpu == CpuOf(x) && BusQuiet.Trusted(loop.u)
    ensures SpinSkip.Deterministic(SpinLoop.MachineOf(loop))
  {
    CachedIsExact(x);
    SpinLoop.LoopIsDeterministic(loop);
  }
}
