/**
 Native batches: the compiled prefix of a block against the interpreter run one instruction at a
 time on code that lives in memory, where a store of the block may change it.
 */
module JitBatch {
  import opened Isa
  import opened Wrappers
  import opened JitIr
  import JitEmit

  datatype Item = Item(pc: Word, insn: Instr)

  /** What a previewed block looks like: supported instructions one behind the other, a jump only
      at the end. */
  predicate IsBlock(items: seq<Item>) {
    && (forall k :: 0 <= k < |items| ==> Supported(items[k].insn))
    && (forall k :: 0 <= k < |items| - 1 ==> items[k + 1].pc == Plus(items[k].pc, 4) && !EndsBlock(items[k].insn))
  }

  /** Cached-mode cycles of one instruction. */
  function Latency(i: Instr): nat {
    if i.Alu? && (i.op == Mul || i.op == Mulh) then 3
    else if i.Alu? && (i.op == Div || i.op == Divu || i.op == Mod) then 16
    else 1
  }

  /** Cycles of the first `n` instructions. */
  function CycleSum(items: seq<Item>, n: nat): nat
    requires n <= |items|
  {
    if n == 0 then 0 else CycleSum(items, n - 1) + Latency(items[n - 1].insn)
  }

  lemma {:induction false} CycleSumGrows(items: seq<Item>, m: nat, n: nat)
    requires m <= n <= |items|
    ensures CycleSum(items, m) + (n - m) <= CycleSum(items, n)
  {
    if m == n {
    } else {
      CycleSumGrows(items, m, n - 1);
    }
  }

  // ---- the interpreter on code in memory ----

  /** Instruction words as the memory holds them. */
  type Code<!M> = (M, Word) -> Instr

  /** One interpreter step: fetch from the current memory, then the instruction set's own step. */
  function StepCode<M, S>(env: Platform<M, S>, code: Code<M>, s: State<M, S>): State<M, S> {
    Step(env.(normal := (sys: S, pc: Word) => code(s.mem, pc)), s)
  }

  function StepsCode<M, S>(env: Platform<M, S>, code: Code<M>, s: State<M, S>, n: nat): State<M, S> {
    if n == 0 then s else StepCode(env, code, StepsCode(env, code, s, n - 1))
  }

  lemma StepIsExecute<M(!new), S(!new)>(env: Platform<M, S>, code: Code<M>, s: State<M, S>, i: Instr)
    requires s.running && s.mode == Normal && !env.user(s.sys) && Wired(env) && code(s.mem, s.pc) == i
    ensures StepCode(env, code, s) == ExecuteNormal(env, s.(executed := s.executed + 1), i)
  {
    SameExecute(env, (sys: S, pc: Word) => code(s.mem, pc), s.(executed := s.executed + 1), i);
  }

  /** Execution does not look at program memory. */
  lemma SameExecute<M, S>(env: Platform<M, S>, normal: (S, Word) -> Instr, s: State<M, S>, i: Instr)
    ensures ExecuteNormal(env.(normal := normal), s, i) == ExecuteNormal(env, s, i)
  {
  }

  // ---- compiled code ----

  datatype Part = Inline(code: Emitted) | Helper(cycles: nat, after: Word, before: Word)

  /** `compile_batch`: inline code, or a call of the memory helper with the cycles up to and
      including the access. */
  function CompilePart(items: seq<Item>, k: nat, features: Word): Part
    requires k < |items| && Supported(items[k].insn)
  {
    if MemoryAccess(items[k].insn) then Helper(CycleSum(items, k + 1), Plus(items[k].pc, 4), items[k].pc)
    else Inline(Emit(items[k].pc, items[k].insn, features))
  }

  function Compile(items: seq<Item>, features: Word): seq<Part>
    requires IsBlock(items)
  {
    seq(|items|, (k: nat) requires k < |items| => CompilePart(items, k, features))
  }

  // ---- running compiled code ----

  /** What the helper asks of the bus: whether an access is to a timing-insensitive device, whether
      the interrupt output changed, and whether the block has a stamp whose code units are
      unchanged. */
  datatype Devices<!M> = Devices(insensitive: (Word, Width) -> bool, irqChanged: M -> bool, codeKept: M -> bool)

  /** The batch context. `owed` is the device time handed to the bus, `deferred` the part of it
      handed over by this batch. */
  datatype Context<!M, !S> = Context(cpu: State<M, S>, executed: Option<nat>, deferred: nat, owed: nat)

  datatype Status = Continue | StopAfter | StopBefore

  /** `batch_memory`. The subtraction is on unsigned numbers: it must not underflow. */
  function BatchMemory<M, S>(env: Platform<M, S>, dev: Devices<M>, c: Context<M, S>, item: Item, k: nat, cycles: nat)
    : (Context<M, S>, Status)
    requires MemoryAccess(item.insn) && c.deferred <= cycles
  {
    var i := item.insn;
    if !dev.insensitive(Plus(ReadReg(c.cpu.reg, i.base), i.offset), i.width) then
      (c.(executed := Some(k)), StopBefore)
    else
      var cpu := ExecuteNormal(env, c.cpu.(pc := item.pc), i);
      var d := c.(cpu := cpu, deferred := cycles, owed := c.owed + (cycles - c.deferred));
      if dev.irqChanged(cpu.mem) || (i.Store? && !dev.codeKept(cpu.mem))
      then (d.(executed := Some(k + 1)), StopAfter)
      else (d, Continue)
  }

  datatype Outcome<!M, !S> = Trapped | Exit(c: Context<M, S>, pc: Word)

  /** The generated function from part `k` on; it executes `count` parts unless the helper stops it. */
  function RunNative<M, S>(env: Platform<M, S>, dev: Devices<M>, items: seq<Item>, k: nat, count: nat, c: Context<M, S>)
    : Outcome<M, S>
    requires IsBlock(items) && k < |items| && c.deferred <= CycleSum(items, k)
    decreases |items| - k
  {
    match CompilePart(items, k, env.features)
    case Inline(code) =>
      var r := Run(EvalBin, code, c.cpu.reg);
      if r.None? then Trapped else ContinueNative(env, dev, items, k, count, c.(cpu := c.cpu.(reg := r.value.0)), r.value.1)
    case Helper(cycles, after, before) =>
      var (d, status) := BatchMemory(env, dev, c, items[k], k, cycles);
      if status == Continue then ContinueNative(env, dev, items, k, count, d, after)
      else Exit(d, if status == StopAfter then after else before)
  }

  function ContinueNative<M, S>(env: Platform<M, S>, dev: Devices<M>, items: seq<Item>, k: nat, count: nat, c: Context<M, S>,
                                next: Word): Outcome<M, S>
    requires IsBlock(items) && k < |items| && c.deferred <= CycleSum(items, k + 1)
    decreases |items| - k, 0
  {
    if k + 1 == |items| || !(count > k + 1) then Exit(c, next)
    else RunNative(env, dev, items, k + 1, count, c)
  }

  // ---- the batch is a run of the interpreter ----

  /** Loads of timing-insensitive devices leave code alone, and unchanged code units mean unchanged
      instructions of the block. */
  ghost predicate Coherent<M(!new), S(!new)>(env: Platform<M, S>, dev: Devices<M>, code: Code<M>, items: seq<Item>) {
    && Wired(env) && JitEmit.ExactAlu(env)
    && (forall m: M, s: S, a: Word, w: Width, pc: Word :: dev.insensitive(a, w) ==> code(env.load(m, s, a, w).1, pc) == code(m, pc))
    && (forall m: M, k :: dev.codeKept(m) && 0 <= k < |items| ==> code(m, items[k].pc) == items[k].insn)
  }

  /** The instructions from `k` up to `count` are the ones in memory. */
  ghost predicate Current<M>(code: Code<M>, items: seq<Item>, m: M, k: nat, count: nat) {
    forall j :: k <= j < count && j < |items| ==> code(m, items[j].pc) == items[j].insn
  }

  /** Before part `k`: the native registers and memory, taken at `pc` with `k` instructions counted,
      are the interpreter's after `k` steps. */
  ghost predicate Follows<M, S>(s: State<M, S>, c: Context<M, S>, pc: Word, t: State<M, S>) {
    && t == c.cpu.(pc := pc, executed := t.executed)
    && t.running && t.mode == Normal && t.sys == s.sys
  }

  /** One inline instruction. */
  lemma InlineStep<M(!new), S(!new)>(env: Platform<M, S>, code: Code<M>, s: State<M, S>, c: Context<M, S>, item: Item,
                                     t: State<M, S>)
    requires Wired(env) && JitEmit.ExactAlu(env) && !env.user(s.sys)
    requires Supported(item.insn) && !MemoryAccess(item.insn)
    requires Follows(s, c, item.pc, t) && code(t.mem, item.pc) == item.insn
    ensures var r := Run(EvalBin, Emit(item.pc, item.insn, env.features), c.cpu.reg);
            r.Some? && Follows(s, c.(cpu := c.cpu.(reg := r.value.0)), r.value.1, StepCode(env, code, t))
    ensures StepCode(env, code, t).executed == t.executed + 1 && StepCode(env, code, t).mem == t.mem
    ensures !EndsBlock(item.insn) ==> StepCode(env, code, t).pc == Plus(item.pc, 4)
  {
    StepIsExecute(env, code, t, item.insn);
    JitEmit.EmitIsExact(env, t.(executed := t.executed + 1), item.insn);
  }

  /** One access through the helper. */
  lemma HelperStep<M(!new), S(!new)>(env: Platform<M, S>, dev: Devices<M>, code: Code<M>, s: State<M, S>, c: Context<M, S>,
                                     item: Item, k: nat, cycles: nat, t: State<M, S>)
    requires Wired(env) && !env.user(s.sys) && MemoryAccess(item.insn) && c.deferred <= cycles
    requires Follows(s, c, item.pc, t) && code(t.mem, item.pc) == item.insn
    ensures var (d, status) := BatchMemory(env, dev, c, item, k, cycles);
            && (status == StopBefore ==> d == c.(executed := Some(k)))
            && (status != StopBefore ==>
                  && Follows(s, d, Plus(item.pc, 4), StepCode(env, code, t))
                  && StepCode(env, code, t).executed == t.executed + 1
                  && d.deferred == cycles && d.owed == c.owed + cycles - c.deferred)
            && (status == StopAfter ==> d.executed == Some(k + 1))
            && (status == Continue ==> d.executed == c.executed)
            && (status == StopBefore <==> !Insensitive(dev, item.insn, t))
            && (status == StopAfter <==> Insensitive(dev, item.insn, t) && Disturbs(dev, item.insn, StepCode(env, code, t).mem))
  {
    StepIsExecute(env, code, t, item.insn);
    AccessOnly(env, c.cpu, t, item);
  }

  /** A granted access does not look at the stale PC and counter of the native state. */
  lemma AccessOnly<M(!new), S(!new)>(env: Platform<M, S>, cpu: State<M, S>, t: State<M, S>, item: Item)
    requires Wired(env) && !env.user(cpu.sys) && MemoryAccess(item.insn)
    requires t == cpu.(pc := item.pc, executed := t.executed)
    ensures var x, y := ExecuteNormal(env, cpu.(pc := item.pc), item.insn), ExecuteNormal(env, t.(executed := t.executed + 1), item.insn);
            && y == x.(executed := t.executed + 1) && y.pc == Plus(item.pc, 4)
            && y.running == t.running && y.mode == t.mode && y.sys == t.sys
  {
  }

  /** After a helper call that lets the batch go on, the rest of the block is still in memory. */
  lemma CodeStaysCurrent<M(!new), S(!new)>(env: Platform<M, S>, dev: Devices<M>, code: Code<M>, items: seq<Item>,
                                           c: Context<M, S>, k: nat, cycles: nat, count: nat)
    requires Coherent(env, dev, code, items) && !env.user(c.cpu.sys)
    requires k < |items| && MemoryAccess(items[k].insn) && c.deferred <= cycles
    requires Current(code, items, c.cpu.mem, k, count)
    requires BatchMemory(env, dev, c, items[k], k, cycles).1 == Continue
    ensures Current(code, items, BatchMemory(env, dev, c, items[k], k, cycles).0.cpu.mem, k, count)
  {
  }

  // ---- why a batch stops ----

  /** The access of an instruction stays inside one timing-insensitive device. */
  predicate Insensitive<M, S>(dev: Devices<M>, i: Instr, t: State<M, S>) {
    MemoryAccess(i) ==> dev.insensitive(Plus(ReadReg(t.reg, i.base), i.offset), i.width)
  }

  /** An access after which the batch may not go on: the interrupt request has changed, or it was a store into
      the block's code units. */
  predicate Disturbs<M>(dev: Devices<M>, i: Instr, m: M) {
    MemoryAccess(i) && (dev.irqChanged(m) || (i.Store? && !dev.codeKept(m)))
  }

  /** Each of the first `n` instructions stayed inside such a device. */
  ghost predicate Undelayed<M, S>(env: Platform<M, S>, dev: Devices<M>, code: Code<M>, items: seq<Item>, s: State<M, S>, n: nat) {
    n <= |items| && forall j: nat :: j < n ==> Insensitive(dev, items[j].insn, StepsCode(env, code, s, j))
  }

  /** None of the first `n` instructions was one to stop after. */
  ghost predicate Undisturbed<M, S>(env: Platform<M, S>, dev: Devices<M>, code: Code<M>, items: seq<Item>, s: State<M, S>, n: nat) {
    n <= |items| && forall j: nat :: j < n ==> !Disturbs(dev, items[j].insn, StepsCode(env, code, s, j + 1).mem)
  }

  /** The batch runs to its count, or stops before the first access that is not insensitive, or right after the
      first one that disturbs it. */
  ghost predicate StopsAt<M, S>(env: Platform<M, S>, dev: Devices<M>, code: Code<M>, items: seq<Item>, s: State<M, S>,
                                count: nat, stopped: bool, n: nat) {
    && n <= count <= |items| && Undelayed(env, dev, code, items, s, n)
    && if !stopped then n == count && Undisturbed(env, dev, code, items, s, n)
       else || (n < count && Undisturbed(env, dev, code, items, s, n)
                && !Insensitive(dev, items[n].insn, StepsCode(env, code, s, n)))
            || (n > 0 && Undisturbed(env, dev, code, items, s, n - 1)
                && Disturbs(dev, items[n - 1].insn, StepsCode(env, code, s, n).mem))
  }

  /** What a batch leaves behind: `n` instructions executed. */
  ghost predicate Finished<M, S>(env: Platform<M, S>, dev: Devices<M>, code: Code<M>, items: seq<Item>, s: State<M, S>, owed: nat,
                                 count: nat, o: Outcome<M, S>, n: nat) {
    && o.Exit? && n <= count <= |items|
    && o.c.cpu.(pc := o.pc, executed := s.executed + n) == StepsCode(env, code, s, n)
    && o.c.deferred <= CycleSum(items, n) && o.c.owed == owed + o.c.deferred
    && n == (if o.c.executed.Some? then o.c.executed.value else count)
    && StopsAt(env, dev, code, items, s, count, o.c.executed.Some?, n)
  }

  /** Before part `k`. */
  ghost predicate Ready<M, S>(env: Platform<M, S>, dev: Devices<M>, code: Code<M>, items: seq<Item>, s: State<M, S>, owed: nat,
                              k: nat, count: nat, c: Context<M, S>) {
    && k < count <= |items|
    && c.executed.None? && c.deferred <= CycleSum(items, k) && c.owed == owed + c.deferred
    && Undelayed(env, dev, code, items, s, k) && Undisturbed(env, dev, code, items, s, k)
    && var t := StepsCode(env, code, s, k);
       Follows(s, c, items[k].pc, t) && t.executed == s.executed + k && Current(code, items, t.mem, k, count)
  }

  /** Part `k` alone: the generated function goes on with the next part, or it is finished. */
  lemma OnePart<M(!new), S(!new)>(env: Platform<M, S>, dev: Devices<M>, code: Code<M>, items: seq<Item>, s: State<M, S>,
                                  owed: nat, k: nat, count: nat, c: Context<M, S>)
    returns (more: bool, d: Context<M, S>, o: Outcome<M, S>, n: nat)
    requires Coherent(env, dev, code, items) && IsBlock(items) && !env.user(s.sys)
    requires Ready(env, dev, code, items, s, owed, k, count, c)
    ensures o == RunNative(env, dev, items, k, count, c)
    ensures more ==> Ready(env, dev, code, items, s, owed, k + 1, count, d) && o == RunNative(env, dev, items, k + 1, count, d)
    ensures !more ==> Finished(env, dev, code, items, s, owed, count, o, n)
  {
    hide Wired, JitEmit.ExactAlu, StepCode, StepsCode, Emit, EndsBlock, Run, Undelayed, Undisturbed, Insensitive, Disturbs;
    var t := StepsCode(env, code, s, k);
    var item := items[k];
    StepsAfter(env, code, s, k);
    Onward(env, dev, code, items, s, k);
    if MemoryAccess(item.insn) {
      var cycles := CycleSum(items, k + 1);
      var r := BatchMemory(env, dev, c, item, k, cycles);
      d, more, n := r.0, r.1 == Continue && k + 1 < count, if r.1 == StopBefore then k else k + 1;
      HelperStep(env, dev, code, s, c, item, k, cycles, t);
      if r.1 == Continue {
        CodeStaysCurrent(env, dev, code, items, c, k, cycles, count);
      }
    } else {
      InlineStep(env, code, s, c, item, t);
      var r := Run(EvalBin, Emit(item.pc, item.insn, env.features), c.cpu.reg);
      d, more, n := c.(cpu := c.cpu.(reg := r.value.0)), k + 1 < count, k + 1;
    }
    o := RunNative(env, dev, items, k, count, c);
  }

  lemma StepsAfter<M, S>(env: Platform<M, S>, code: Code<M>, s: State<M, S>, k: nat)
    ensures StepsCode(env, code, s, k + 1) == StepCode(env, code, StepsCode(env, code, s, k))
  {
  }

  /** One instruction more that did not stop the batch. */
  lemma Onward<M, S>(env: Platform<M, S>, dev: Devices<M>, code: Code<M>, items: seq<Item>, s: State<M, S>, k: nat)
    requires k < |items| && Undelayed(env, dev, code, items, s, k) && Undisturbed(env, dev, code, items, s, k)
    ensures var i, t, u := items[k].insn, StepsCode(env, code, s, k), StepsCode(env, code, s, k + 1);
            && (Insensitive(dev, i, t) ==> Undelayed(env, dev, code, items, s, k + 1))
            && (!Disturbs(dev, i, u.mem) ==> Undisturbed(env, dev, code, items, s, k + 1))
            && (!MemoryAccess(i) ==> Insensitive(dev, i, t) && !Disturbs(dev, i, u.mem))
  {
    hide StepsCode;
  }

  /** Main result: for every block and every count, a native batch whose instructions are the ones
      in memory ends in the state of exactly that many interpreter steps, unless it meets an access that is
      not insensitive or disturbs it: then it stops right before, or right after, the first such access.
      It never traps, and it has handed over no more device time than those instructions take. */
  lemma BatchIsSteps<M(!new), S(!new)>(env: Platform<M, S>, dev: Devices<M>, code: Code<M>, items: seq<Item>, s: State<M, S>,
                                       owed: nat, count: nat)
    returns (o: Outcome<M, S>, n: nat)
    requires Coherent(env, dev, code, items) && IsBlock(items) && 1 <= count <= |items|
    requires s.running && s.mode == Normal && !env.user(s.sys) && s.pc == items[0].pc
    requires Current(code, items, s.mem, 0, count)
    ensures o == RunNative(env, dev, items, 0, count, Context(s, None, 0, owed))
    ensures Finished(env, dev, code, items, s, owed, count, o, n)
  {
    hide Coherent, IsBlock, RunNative, Finished;
    var c0 := Context(s, None, 0, owed);
    var k, c, more := 0, c0, true;
    o, n := RunNative(env, dev, items, 0, count, c0), 0;
    while more
      invariant o == RunNative(env, dev, items, 0, count, c0)
      invariant more ==> Ready(env, dev, code, items, s, owed, k, count, c) && o == RunNative(env, dev, items, k, count, c)
      invariant !more ==> Finished(env, dev, code, items, s, owed, count, o, n)
      decreases more, count - k
    {
      more, c, o, n := OnePart(env, dev, code, items, s, owed, k, count, c);
      k := k + 1;
    }
  }
}
