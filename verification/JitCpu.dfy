/**
 The block compiler's loops and the dispatch of native batches: previewing a block, choosing the
 prefix that fits the idle window, and running it on the CPU.
 */
module JitCpu {
  import opened Isa
  import opened Wrappers
  import opened JitIr
  import opened JitBatch

  /** `preview`: the longest run of supported instructions that can be read without side effects, up
      to the first branch. */
  method Preview(peek: Word -> Option<Instr>, start: Word, max: nat) returns (items: seq<Item>)
    ensures IsBlock(items) && |items| <= max && (items != [] ==> items[0].pc == start)
    ensures forall k :: 0 <= k < |items| ==> peek(items[k].pc) == Some(items[k].insn)
    ensures |items| == max || (items != [] && EndsBlock(items[|items| - 1].insn))
            || var next := if items == [] then start else Plus(items[|items| - 1].pc, 4);
               peek(next).None? || !Supported(peek(next).value)
  {
    var pc := start;
    items := [];
    for i := 0 to max
      invariant |items| == i && IsBlock(items)
      invariant pc == if items == [] then start else Plus(items[|items| - 1].pc, 4)
      invariant items != [] ==> items[0].pc == start && !EndsBlock(items[|items| - 1].insn)
      invariant forall k :: 0 <= k < |items| ==> peek(items[k].pc) == Some(items[k].insn)
    {
      var read := peek(pc);
      if read.None? || !Supported(read.value) {
        return;
      }
      items := items + [Item(pc, read.value)];
      if EndsBlock(read.value) {
        return;
      }
      pc := Plus(pc, 4);
    }
  }

  /** `compile_batch`: one part after the other, with the running sum of cycles. */
  method CompileBatch(items: seq<Item>, features: Word) returns (parts: seq<Part>)
    requires IsBlock(items)
    ensures parts == Compile(items, features)
  {
    parts := [];
    var cycles := 0;
    for k := 0 to |items|
      invariant |parts| == k && cycles == CycleSum(items, k)
      invariant forall j :: 0 <= j < k ==> parts[j] == CompilePart(items, j, features)
    {
      cycles := cycles + Latency(items[k].insn);
      var part := if MemoryAccess(items[k].insn) then Helper(cycles, Plus(items[k].pc, 4), items[k].pc)
                  else Inline(Emit(items[k].pc, items[k].insn, features));
      parts := parts + [part];
    }
  }

  /** The first `n` instructions are the longest prefix whose cycles fit the limit. */
  predicate Longest(items: seq<Item>, cycleLimit: nat, n: nat) {
    && n <= |items| && CycleSum(items, n) <= cycleLimit
    && (n < |items| ==> CycleSum(items, n + 1) > cycleLimit)
  }

  /** There is only one. */
  lemma LongestIsUnique(items: seq<Item>, cycleLimit: nat, m: nat, n: nat)
    requires Longest(items, cycleLimit, m) && Longest(items, cycleLimit, n)
    ensures m == n
  {
    if m < n {
      CycleSumGrows(items, m + 1, n);
    } else if n < m {
      CycleSumGrows(items, n + 1, m);
    }
  }

  method Prefix(items: seq<Item>, cycleLimit: nat) returns (cycles: nat, limit: nat)
    ensures Longest(items, cycleLimit, limit) && cycles == CycleSum(items, limit)
  {
    cycles, limit := 0, 0;
    while limit < |items|
      invariant limit <= |items| && cycles == CycleSum(items, limit) <= cycleLimit
    {
      var next := cycles + Latency(items[limit].insn);
      if next > cycleLimit {
        break;
      }
      cycles, limit := next, limit + 1;
    }
  }

  /** What dispatch asks of the machine: catching the devices up, the length of a fresh idle window,
      whether an interrupt would be taken, and how many leading instructions of the block are
      current cache hits. */
  datatype Dispatch<!M> = Dispatch(flush: (M, nat) -> M, freshWindow: M -> nat, interrupted: M -> bool, hits: M -> nat)

  /** A hit is an instruction that is in memory. */
  ghost predicate HitsAreCurrent<M(!new)>(x: Dispatch<M>, code: Code<M>, items: seq<Item>) {
    forall m: M :: x.hits(m) <= |items| && Current(code, items, m, 0, x.hits(m))
  }

  /** Cycles that may be deferred without reaching the deadline, with `owed` deferred in a window of this length. */
  function IdleRoom<M>(x: Dispatch<M>, m: M, owed: nat, window: nat): nat {
    if owed != 0 then (if window > owed + 1 then window - (owed + 1) else 0)
    else if x.freshWindow(m) > 0 then x.freshWindow(m) - 1 else 0
  }

  /** As many as leave a cycle of the window, which is a fresh one if nothing is deferred. */
  lemma IdleRoomIs<M>(x: Dispatch<M>, m: M, owed: nat, window: nat, n: nat)
    requires n > 0
    ensures n <= IdleRoom(x, m, owed, window) <==> owed + n < if owed == 0 then x.freshWindow(m) else window
  {
  }

  /** The prefix a dispatch may run. */
  predicate Choice<M>(x: Dispatch<M>, items: seq<Item>, budget: nat, m: M, owed: nat, window: nat, limit: nat) {
    var room := IdleRoom(x, m, owed, window);
    Longest(items, if budget < room then budget else room, limit)
  }

  class JitCpu<!M(!new), !S(!new)> {
    var cpu: State<M, S>
    var cycles: nat
    var runningCycles: nat
    var cacheHits: nat
    /** Deferred device cycles, and the length of the window they are in. */
    var relaxedCycles: nat
    var window: nat

    constructor (cpu: State<M, S>)
      ensures this.cpu == cpu && relaxedCycles == 0
    {
      this.cpu := cpu;
      cycles, runningCycles, cacheHits, relaxedCycles, window := 0, 0, 0, 0, 0;
    }

    /** The longest prefix that fits. Outside a chain, if that is less than two cycles, the devices are caught up
        first, which opens a new window. */
    method ChoosePrefix(x: Dispatch<M>, items: seq<Item>, budget: nat, chained: bool)
      returns (cost: nat, limit: nat, ghost first: nat)
      modifies this`cpu, this`relaxedCycles
      ensures Choice(x, items, budget, old(cpu).mem, old(relaxedCycles), window, first)
      ensures (cpu, relaxedCycles)
           == if CycleSum(items, first) < 2 && !chained && old(relaxedCycles) != 0
              then (old(cpu).(mem := x.flush(old(cpu).mem, old(relaxedCycles))), 0) else old((cpu, relaxedCycles))
      ensures Choice(x, items, budget, cpu.mem, relaxedCycles, window, limit) && cost == CycleSum(items, limit)
    {
      var room := IdleRoom(x, cpu.mem, relaxedCycles, window);
      cost, limit := Prefix(items, if budget < room then budget else room);
      first := limit;
      if (limit == 0 || cost < 2) && !chained && relaxedCycles != 0 {
        cpu := cpu.(mem := x.flush(cpu.mem, relaxedCycles));
        relaxedCycles := 0;
        room := IdleRoom(x, cpu.mem, relaxedCycles, window);
        cost, limit := Prefix(items, if budget < room then budget else room);
      }
    }

    /** `run_native_idle_batch`. With a relaxed run and a budget of two cycles, it chooses the longest prefix of
        the block that fits, from where the CPU was or from where catching up with the devices left it.
        If that is worth two cycles, the block begins here, no interrupt waits and the whole prefix is
        current, the CPU executes `n` of its instructions: all, unless an access stops it. Its state is
        that of `n` interpreter steps, it charges exactly their cycles and owes the devices exactly that
        much more. Otherwise nothing else changes. */
    method RunNativeIdleBatch(env: Platform<M, S>, dev: Devices<M>, x: Dispatch<M>, ghost code: Code<M>, items: seq<Item>,
                              relaxedRun: bool, budget: nat, chained: bool)
      returns (ran: bool, ghost start: State<M, S>, ghost owed: nat, ghost first: nat, ghost limit: nat, ghost stopped: bool, ghost n: nat)
      requires Coherent(env, dev, code, items) && IsBlock(items) && HitsAreCurrent(x, code, items)
      requires cpu.running && cpu.mode == Normal && !env.user(cpu.sys)
      modifies this
      ensures relaxedRun && budget >= 2 ==>
                && Choice(x, items, budget, old(cpu).mem, old(relaxedCycles), old(window), first)
                && (start, owed) == (if CycleSum(items, first) < 2 && !chained && old(relaxedCycles) != 0
                                     then (old(cpu).(mem := x.flush(old(cpu).mem, old(relaxedCycles))), 0)
                                     else (old(cpu), old(relaxedCycles)))
                && Choice(x, items, budget, start.mem, owed, old(window), limit)
      ensures !(relaxedRun && budget >= 2) ==> (start, owed) == (old(cpu), old(relaxedCycles)) && !ran
      ensures relaxedRun && budget >= 2 ==>
                if CycleSum(items, limit) >= 2 && start.pc == items[0].pc && !x.interrupted(start.mem) && x.hits(start.mem) >= limit
                then StopsAt(env, dev, code, items, start, limit, stopped, n) && (ran <==> n > 0)
                else !ran
      ensures !ran ==> cpu == start && relaxedCycles == owed && cycles == old(cycles) && cacheHits == old(cacheHits)
                       && runningCycles == old(runningCycles) && window == old(window)
      ensures ran ==>
                && 1 <= n <= |items| && cpu == StepsCode(env, code, start, n)
                && cycles == old(cycles) + CycleSum(items, n) && runningCycles == old(runningCycles) + CycleSum(items, n)
                && cacheHits == old(cacheHits) + n && CycleSum(items, n) <= budget
                && relaxedCycles == owed + CycleSum(items, n) < window
                && window == if owed == 0 then x.freshWindow(start.mem) else old(window)
    {
      hide Coherent, IsBlock, HitsAreCurrent, CycleSum, StepsCode, Current, StopsAt, Longest;
      ran, start, owed, first, limit, stopped, n := false, cpu, relaxedCycles, 0, 0, false, 0;
      if !relaxedRun || budget < 2 {
        return;
      }
      var cost, prefix;
      cost, prefix, first := ChoosePrefix(x, items, budget, chained);
      start, owed, limit := cpu, relaxedCycles, prefix;
      PrefixFits(x, items, budget, cpu.mem, relaxedCycles, window, prefix);
      if prefix == 0 || cost < 2 {
        return;
      }
      if cpu.pc != items[0].pc || x.interrupted(cpu.mem) {
        return;
      }
      var count := x.hits(cpu.mem);
      if count < prefix {
        return;
      }
      HitPrefix(x, code, items, cpu.mem, prefix);
      var executed, total, after, debt;
      executed, total, after, debt, stopped := RunBatch(env, dev, code, items, cpu, relaxedCycles, prefix);
      n := executed;
      if executed == 0 {
        return;
      }
      if relaxedCycles == 0 {
        window := x.freshWindow(cpu.mem);
      }
      ran := true;
      relaxedCycles := debt;
      cpu := after;
      cycles := cycles + total;
      runningCycles := runningCycles + total;
      cacheHits := cacheHits + executed;
    }
  }

  /** A chosen prefix stays inside budget and window, and an empty one costs nothing. */
  lemma PrefixFits<M>(x: Dispatch<M>, items: seq<Item>, budget: nat, m: M, owed: nat, window: nat, limit: nat)
    requires Choice(x, items, budget, m, owed, window, limit)
    ensures limit <= |items| && CycleSum(items, limit) <= budget
    ensures CycleSum(items, limit) > 0 ==> owed + CycleSum(items, limit) < if owed == 0 then x.freshWindow(m) else window
    ensures limit == 0 ==> CycleSum(items, limit) == 0
  {
  }

  /** The call of the generated function and the accounting behind it. The device time not yet
      handed over never underflows. */
  method RunBatch<M(!new), S(!new)>(env: Platform<M, S>, dev: Devices<M>, ghost code: Code<M>, items: seq<Item>,
                                    cpu: State<M, S>, owed: nat, limit: nat)
    returns (executed: nat, total: nat, after: State<M, S>, debt: nat, ghost stopped: bool)
    requires Coherent(env, dev, code, items) && IsBlock(items) && 1 <= limit <= |items|
    requires cpu.running && cpu.mode == Normal && !env.user(cpu.sys) && cpu.pc == items[0].pc
    requires Current(code, items, cpu.mem, 0, limit)
    ensures executed <= limit && total == CycleSum(items, executed) <= CycleSum(items, limit)
    ensures after == StepsCode(env, code, cpu, executed) && debt == owed + total
    ensures StopsAt(env, dev, code, items, cpu, limit, stopped, executed)
  {
    hide Coherent, IsBlock, StepsCode, Current, StopsAt;
    var outcome := RunNative(env, dev, items, 0, limit, Context(cpu, None, 0, owed));
    ghost var o, n := BatchIsSteps(env, dev, code, items, cpu, owed, limit);
    stopped := outcome.c.executed.Some?;
    executed := if outcome.c.executed.Some? then outcome.c.executed.value else limit;
    total := CycleSum(items, executed);
    CycleSumGrows(items, executed, limit);
    debt := outcome.c.owed + (total - outcome.c.deferred);
    after := outcome.c.cpu.(pc := outcome.pc, executed := cpu.executed + executed);
  }

  /** Counted hits vouch for every shorter prefix. */
  lemma HitPrefix<M(!new)>(x: Dispatch<M>, code: Code<M>, items: seq<Item>, m: M, limit: nat)
    requires HitsAreCurrent(x, code, items) && limit <= x.hits(m)
    ensures Current(code, items, m, 0, limit)
  {
  }
}
