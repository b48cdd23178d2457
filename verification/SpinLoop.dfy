/**
 The CPU's run loop on the system bus keeps the promises that fast-forwarding relies on, for any CPU
 whose cycle is a function of its core, memory and what reads can see.
 */
module SpinLoop {
  import opened Wrappers
  import opened SpinSkip
  import opened BusQuiet
  import opened BusClock

  /** A CPU cycle: the new core and memory, what accesses do to the devices, and what it counts. */
  datatype Cycle<!C, !R, !M> = Cycle(
    core: C, memory: R, access: M -> M, effects: nat, fills: nat, instructions: nat, hits: nat)

  /** `sample` latches the interrupt output; `wakes` says that an enabled interrupt is latched, `calm`
      that if one is, it is taken at the next boundary and not left in front of a HALT. */
  datatype Cpu<!C, !R, !M, !V> = Cpu(
    halted: C -> bool, head: C -> bool, pc: C -> nat, wakes: C -> bool, calm: C -> bool,
    sample: (C, V) -> C, cycle: (C, R, V) -> Cycle<C, R, M>)

  /** Sampling twice sees nothing new and neither halts nor wakes the CPU. A cycle that counts no
      effect leaves memory, devices and sampled lines alone; from a calm core it leaves a calm core,
      and if it halts the CPU, no interrupt is waiting. */
  ghost predicate Exact<C(!new), R(!new), M(!new), V(!new)>(cpu: Cpu<C, R, M, V>) {
    && (forall c: C, v: V :: cpu.sample(cpu.sample(c, v), v) == cpu.sample(c, v))
    && (forall c: C, v: V :: cpu.halted(cpu.sample(c, v)) == cpu.halted(c))
    && (forall c: C :: cpu.head(c) ==> !cpu.halted(c) && (!cpu.wakes(c) ==> cpu.calm(c)))
    && (forall c: C, r: R, v: V :: cpu.cycle(c, r, v).effects == 0 ==> Harmless(cpu, c, r, v, cpu.cycle(c, r, v)))
  }

  ghost predicate Harmless<C, R, M(!new), V>(cpu: Cpu<C, R, M, V>, c: C, r: R, v: V, y: Cycle<C, R, M>) {
    && y.memory == r && (forall m: M :: y.access(m) == m)
    && (cpu.sample(c, v) == c ==> cpu.sample(y.core, v) == y.core)
    && (cpu.calm(c) ==> if cpu.halted(y.core) then !cpu.wakes(y.core) else cpu.calm(y.core))
  }

  /** The loop's surroundings; `pending` says that a DMA transfer is at work. */
  datatype Loop<!C, !R, !P, !K, !D, !S> = Loop(
    cpu: Cpu<C, R, Devices<P, K, D>, View<K, S>>, u: Setup<P, K, D, S>, pending: Devices<P, K, D> -> bool)

  /** `cycles_until_next_event`: the timer's interrupt or the earliest card deadline. */
  function UntilEvent<P, K>(d: DeviceModel<P, K>, b: Bus<P, K>): Option<nat> {
    Sooner(d.untilIrq(b.timer), Earliest(d, b.slots, b.clock))
  }

  function Sooner(a: Option<nat>, b: Option<nat>): Option<nat> {
    if a.None? then b else if b.None? || a.value <= b.value then a else b
  }

  function Earliest<P, K>(d: DeviceModel<P, K>, slots: seq<BusClock.Slot<K>>, now: nat): Option<nat> {
    if slots == [] then None
    else
      var rest := Earliest(d, slots[1..], now);
      if slots[0].Empty? || d.deadline(slots[0].state).None? then rest
      else
        var at := d.deadline(slots[0].state).value;
        Sooner(Some(if at > now then at - now else 0), rest)
  }

  lemma {:induction false} NoCardsNoDeadline<P, K>(d: DeviceModel<P, K>, slots: seq<BusClock.Slot<K>>, now: nat)
    requires forall i :: 0 <= i < |slots| ==> slots[i].Empty?
    ensures Earliest(d, slots, now).None?
  {
    if slots == [] {
    } else {
      NoCardsNoDeadline(d, slots[1..], now);
    }
  }

  /** A halted CPU's jump to the next event or to the end, unless DMA is at work. */
  function Jump<C, R, P, K, D, S>(x: Loop<C, R, P, K, D, S>, w: World<C, R, Devices<P, K, D>>, end: nat)
    : World<C, R, Devices<P, K, D>>
  {
    if !x.cpu.halted(w.core) || x.pending(w.devices) || w.cycles >= end then w
    else
      var skip := Shorter(UntilEvent(x.u.d, w.devices.bus), end - w.cycles);
      w.(cycles := w.cycles + skip, devices := w.devices.(bus := Ticks(x.u.d, x.u.mask, w.devices.bus, skip)))
  }

  /** One cycle: devices first, then the interrupt output is sampled, and the CPU executes, wakes up
      or stays halted. */
  function OneCycle<C, R, P, K, D, S>(x: Loop<C, R, P, K, D, S>, w: World<C, R, Devices<P, K, D>>)
    : World<C, R, Devices<P, K, D>>
  {
    var m := TickDevices(x.u, w.devices);
    var view := ViewOf(x.u, m);
    var core := x.cpu.sample(w.core, view);
    if x.cpu.halted(core) && !x.cpu.wakes(core) then w.(core := core, cycles := w.cycles + 1, devices := m)
    else
      var y := x.cpu.cycle(core, w.memory, view);
      World(y.core, w.cycles + 1, w.runningCycles + 1, w.instructions + y.instructions, w.cacheHits + y.hits,
        w.effectful + y.effects, w.fills + y.fills, y.memory, y.access(m))
  }

  /** The quiet window. A bus whose interrupt controller is out of date is never looked at. */
  function QuietOf<P, K, D, S>(u: Setup<P, K, D, S>, m: Devices<P, K, D>): nat {
    if Sound(u, m) then QuietCycles(u, m, 0) else 0
  }

  /** The loop as a machine that can be fast-forwarded. */
  ghost function MachineOf<C, R, P, K, D, S>(x: Loop<C, R, P, K, D, S>): Machine<C, R, Devices<P, K, D>, View<K, S>> {
    Machine(
      (c: C, v: View<K, S>) => !x.cpu.halted(x.cpu.sample(c, v)) || x.cpu.wakes(x.cpu.sample(c, v)),
      (c: C, v: View<K, S>) => x.cpu.sample(c, v) == c,
      (c: C, v: View<K, S>) => x.cpu.sample(c, v) == c && (if x.cpu.halted(c) then !x.cpu.wakes(c) else x.cpu.calm(c)),
      x.cpu.head,
      x.cpu.pc,
      x.cpu.wakes,
      (w: World<C, R, Devices<P, K, D>>, end: nat) => Jump(x, OneCycle(x, w), end),
      (m: Devices<P, K, D>) => QuietOf(x.u, m),
      (m: Devices<P, K, D>, n: nat) => IdleBy(x.u, m, n),
      (m: Devices<P, K, D>) => ViewOf(x.u, m),
      (c: C, r: R, v: View<K, S>) => PureCycle(x.cpu, c, r, v))
  }

  /** A cycle that counts nothing but instructions and hits, and goes on running. */
  function PureCycle<C, R, M, V>(cpu: Cpu<C, R, M, V>, c: C, r: R, v: V): Option<(C, nat, nat)> {
    var y := cpu.cycle(c, r, v);
    if y.effects == 0 && y.fills == 0 && !cpu.halted(y.core) then Some((y.core, y.instructions, y.hits)) else None
  }

  // ---- the promises ----

  /** A cycle in a quiet window, before any jump: one device tick that nothing can see. */
  lemma QuietTick<P(!new), K(!new), D(!new), S(!new)>(u: Setup<P, K, D, S>, m: Devices<P, K, D>)
    requires Trusted(u) && QuietOf(u, m) >= 1
    ensures TickDevices(u, m) == IdleBy(u, m, 1) && ViewOf(u, IdleBy(u, m, 1)) == ViewOf(u, m)
    ensures Sound(u, IdleBy(u, m, 1)) && QuietOf(u, IdleBy(u, m, 1)) >= QuietOf(u, m) - 1
  {
    OneQuietTick(u, m);
    IdleIsUnseen(u, m, 1);
  }

  /** The jump of a halted CPU inside the window moves the bus's clock alone. */
  lemma JumpIsUnseen<P(!new), K(!new), D(!new), S(!new)>(u: Setup<P, K, D, S>, m: Devices<P, K, D>, n: nat)
    requires Trusted(u) && Sound(u, m) && n <= Window(u, m)
    ensures var v := m.(bus := Ticks(u.d, u.mask, m.bus, n));
            Sound(u, v) && ViewOf(u, v) == ViewOf(u, m) && QuietOf(u, v) >= QuietOf(u, m) - n
  {
    if n == 0 {
      NoTicks(u.d, u.mask, m.bus);
    } else {
      IdleBus(u.d, u.mask, m.bus, n);
      ClocksAreUnseen(u, m, m.(bus := Ticks(u.d, u.mask, m.bus, n)), n);
    }
  }

  /** Behind a cycle without effects, the jump leaves the window or cannot be seen. */
  lemma JumpStays<C, R, P(!new), K(!new), D(!new), S(!new)>(
    x: Loop<C, R, P, K, D, S>, w: World<C, R, Devices<P, K, D>>, s: World<C, R, Devices<P, K, D>>, end: nat)
    requires Trusted(x.u) && Sound(x.u, s.devices)
    requires s.cycles + QuietOf(x.u, s.devices) >= w.cycles + QuietOf(x.u, w.devices)
    ensures var v := Jump(x, s, end);
            && v == s.(cycles := v.cycles, devices := v.devices) && (!x.cpu.halted(s.core) ==> v == s)
            && (v.cycles > w.cycles + QuietOf(x.u, w.devices)
                || (ViewOf(x.u, v.devices) == ViewOf(x.u, s.devices)
                    && v.cycles + QuietOf(x.u, v.devices) >= w.cycles + QuietOf(x.u, w.devices)))
  {
    hide Trusted, Sound, ViewOf, Window, Ticks;
    var v := Jump(x, s, end);
    var skip := v.cycles - s.cycles;
    if v != s && skip <= QuietOf(x.u, s.devices) {
      JumpIsUnseen(x.u, s.devices, skip);
    }
  }

  /** What a cycle leaves in a quiet window, unless it counts an effect or a fill. */
  lemma CycleStays<C(!new), R(!new), P(!new), K(!new), D(!new), S(!new)>(
    x: Loop<C, R, P, K, D, S>, w: World<C, R, Devices<P, K, D>>)
    requires Trusted(x.u) && Exact(x.cpu) && QuietOf(x.u, w.devices) >= 1
    requires OneCycle(x, w).effectful == w.effectful
    ensures var s, view := OneCycle(x, w), ViewOf(x.u, w.devices);
            && s.devices == IdleBy(x.u, w.devices, 1) && Sound(x.u, s.devices) && ViewOf(x.u, s.devices) == view
            && s.memory == w.memory && s.cycles == w.cycles + 1
            && s.cycles + QuietOf(x.u, s.devices) >= w.cycles + QuietOf(x.u, w.devices)
            && x.cpu.sample(s.core, view) == s.core
  {
    QuietTick(x.u, w.devices);
    var view := ViewOf(x.u, w.devices);
    var core := x.cpu.sample(w.core, view);
    if !(x.cpu.halted(core) && !x.cpu.wakes(core)) {
      assert Harmless(x.cpu, core, w.memory, view, x.cpu.cycle(core, w.memory, view));
    }
  }

  lemma PassStays<C(!new), R(!new), P(!new), K(!new), D(!new), S(!new)>(
    x: Loop<C, R, P, K, D, S>, w: World<C, R, Devices<P, K, D>>, end: nat)
    requires Trusted(x.u) && Exact(x.cpu) && QuietOf(x.u, w.devices) >= 1
    ensures var y, v := MachineOf(x), Jump(x, OneCycle(x, w), end); Leaves(y, w, v) || Stays(y, w, v)
  {
    hide Trusted, ViewOf, QuietOf, TickDevices, IdleBy, UntilEvent, Exact, Ticks;
    var s := OneCycle(x, w);
    if s.effectful == w.effectful {
      CycleStays(x, w);
      JumpStays(x, w, s, end);
    }
  }

  /** A settled CPU's pass. */
  lemma PassIsPure<C(!new), R(!new), P(!new), K(!new), D(!new), S(!new)>(
    x: Loop<C, R, P, K, D, S>, w: World<C, R, Devices<P, K, D>>, end: nat)
    requires Trusted(x.u) && Exact(x.cpu) && QuietOf(x.u, w.devices) >= 1 && SpinSkip.Settled(MachineOf(x), w)
    ensures var y, v := MachineOf(x), Jump(x, OneCycle(x, w), end);
            var p := Pure(y, w);
            if Runs(y, w) && p.Some? then v == Passive(y, w, p.value.0, 1, p.value.1, p.value.2) && SpinSkip.Settled(y, v)
            else Leaves(y, w, v) || (!Runs(y, v) && SpinSkip.Settled(y, v))
  {
    hide Trusted, ViewOf, QuietOf, TickDevices, IdleBy, UntilEvent, Ticks;
    var s, view := OneCycle(x, w), ViewOf(x.u, w.devices);
    QuietTick(x.u, w.devices);
    if s.effectful == w.effectful {
      CycleStays(x, w);
      JumpStays(x, w, s, end);
      if !(x.cpu.halted(w.core) && !x.cpu.wakes(w.core)) {
        assert Harmless(x.cpu, w.core, w.memory, view, x.cpu.cycle(w.core, w.memory, view));
      }
    }
  }

  lemma PassProgresses<C, R, P, K, D, S>(x: Loop<C, R, P, K, D, S>, w: World<C, R, Devices<P, K, D>>, end: nat)
    requires w.cycles < end
    ensures var v := Jump(x, OneCycle(x, w), end);
            w.cycles < v.cycles <= end && w.effectful <= v.effectful && w.fills <= v.fills
  {
  }

  lemma WindowsAreQuiet<P(!new), K(!new), D(!new), S(!new)>(u: Setup<P, K, D, S>, m: Devices<P, K, D>, n: nat)
    requires Trusted(u) && n <= QuietOf(u, m)
    ensures QuietOf(u, IdleBy(u, m, n)) >= QuietOf(u, m) - n && ViewOf(u, IdleBy(u, m, n)) == ViewOf(u, m)
  {
    if Sound(u, m) {
      IdleIsUnseen(u, m, n);
    } else {
      IdleByNone(u, m);
    }
  }

  lemma LoopProgresses<C(!new), R(!new), P(!new), K(!new), D(!new), S(!new)>(x: Loop<C, R, P, K, D, S>)
    ensures Progress(MachineOf(x))
  {
    forall w: World<C, R, Devices<P, K, D>>, end: nat | w.cycles < end
      ensures var v := MachineOf(x).pass(w, end);
              w.cycles < v.cycles <= end && w.effectful <= v.effectful && w.fills <= v.fills
    {
      PassProgresses(x, w, end);
    }
  }

  lemma LoopClocks<C(!new), R(!new), P(!new), K(!new), D(!new), S(!new)>(x: Loop<C, R, P, K, D, S>)
    requires Trusted(x.u)
    ensures ClocksAdd(MachineOf(x))
  {
    var y := MachineOf(x);
    forall m: Devices<P, K, D> ensures y.advance(m, 0) == m {
      IdleByNone(x.u, m);
    }
    forall m: Devices<P, K, D>, n: nat ensures y.advance(y.advance(m, n), 1) == y.advance(m, n + 1) {
      IdleAdds(x.u, m, n, 1);
    }
  }

  lemma LoopWindows<C(!new), R(!new), P(!new), K(!new), D(!new), S(!new)>(x: Loop<C, R, P, K, D, S>)
    requires Trusted(x.u)
    ensures QuietWindows(MachineOf(x))
  {
    var y := MachineOf(x);
    forall m: Devices<P, K, D>, n: nat | n <= y.quiet(m)
      ensures y.quiet(y.advance(m, n)) >= y.quiet(m) - n && y.view(y.advance(m, n)) == y.view(m)
    {
      WindowsAreQuiet(x.u, m, n);
    }
  }

  lemma PassesStay<C(!new), R(!new), P(!new), K(!new), D(!new), S(!new)>(x: Loop<C, R, P, K, D, S>)
    requires Trusted(x.u) && Exact(x.cpu)
    ensures QuietPasses(MachineOf(x))
  {
    var y := MachineOf(x);
    forall w: World<C, R, Devices<P, K, D>>, end: nat | w.cycles < end && y.quiet(w.devices) >= 1
      ensures Leaves(y, w, y.pass(w, end)) || Stays(y, w, y.pass(w, end))
    {
      PassStays(x, w, end);
    }
  }

  lemma PassesArePure<C(!new), R(!new), P(!new), K(!new), D(!new), S(!new)>(x: Loop<C, R, P, K, D, S>)
    requires Trusted(x.u) && Exact(x.cpu)
    ensures PureCycles(MachineOf(x))
  {
    var y := MachineOf(x);
    forall w: World<C, R, Devices<P, K, D>>, end: nat | w.cycles < end && y.quiet(w.devices) >= 1 && SpinSkip.Settled(y, w)
      ensures var p, v := Pure(y, w), y.pass(w, end);
              if Runs(y, w) && p.Some? then v == Passive(y, w, p.value.0, 1, p.value.1, p.value.2) && SpinSkip.Settled(y, v)
              else Leaves(y, w, v) || (!Runs(y, v) && SpinSkip.Settled(y, v))
    {
      PassIsPure(x, w, end);
    }
  }

  /** Main result: every such CPU on every such bus keeps all the promises, so fast-forwarding its
      spin loops never changes where a run ends. */
  lemma LoopIsDeterministic<C(!new), R(!new), P(!new), K(!new), D(!new), S(!new)>(x: Loop<C, R, P, K, D, S>)
    requires Trusted(x.u) && Exact(x.cpu)
    ensures Deterministic(MachineOf(x))
  {
    LoopProgresses(x);
    LoopClocks(x);
    LoopWindows(x);
    PassesStay(x);
    PassesArePure(x);
  }
}
