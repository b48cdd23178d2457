/** The spin detector and the run loop that uses it. */
module SpinCpu {
  import opened Wrappers
  import opened SpinSkip

  const PROBES: nat := 8

  /** Snapshot of a loop head. `quietUntil` is set once an iteration has matched: the last cycle of
      the quiet window measured there. */
  datatype Probe<!C> = Probe(
    core: C, cycles: nat, instructions: nat, cacheHits: nat, effectful: nat, fills: nat, quietUntil: Option<nat>)

  ghost predicate TakenAt<C, R, D, V>(x: Machine<C, R, D, V>, p: Probe<C>, w: World<C, R, D>) {
    && p == Probe(w.core, w.cycles, w.instructions, w.cacheHits, w.effectful, w.fills, p.quietUntil)
    && (p.quietUntil.Some? ==> p.quietUntil.value == w.cycles + x.quiet(w.devices))
  }

  /** A probe was taken at some state the run has come from. */
  ghost predicate ProbeOk<C(!new), R(!new), D(!new), V(!new)>(x: Machine<C, R, D, V>, p: Probe<C>, v: World<C, R, D>) {
    exists w: World<C, R, D>, ends: seq<nat> :: TakenAt(x, p, w) && ComesFrom(x, w, ends, v)
  }

  ghost predicate ComesFrom<C, R, D, V>(x: Machine<C, R, D, V>, w: World<C, R, D>, ends: seq<nat>, v: World<C, R, D>) {
    Timely(x, w, ends) && v == Passes(x, w, ends)
  }

  ghost predicate ProbesOk<C(!new), R(!new), D(!new), V(!new)>(
    x: Machine<C, R, D, V>, probes: seq<Option<Probe<C>>>, v: World<C, R, D>)
  {
    |probes| == PROBES && forall i :: 0 <= i < PROBES && probes[i].Some? ==> ProbeOk(x, probes[i].value, v)
  }

  lemma FreshProbe<C(!new), R(!new), D(!new), V(!new)>(x: Machine<C, R, D, V>, p: Probe<C>, v: World<C, R, D>)
    requires TakenAt(x, p, v)
    ensures ProbeOk(x, p, v)
  {
    assert ComesFrom(x, v, [], v);
  }

  /** Probes stay good as the run goes on. */
  lemma ProbesLater<C(!new), R(!new), D(!new), V(!new)>(
    x: Machine<C, R, D, V>, probes: seq<Option<Probe<C>>>, v: World<C, R, D>, more: seq<nat>)
    requires ProbesOk(x, probes, v) && Timely(x, v, more)
    ensures ProbesOk(x, probes, Passes(x, v, more))
  {
    forall i | 0 <= i < PROBES && probes[i].Some? ensures ProbeOk(x, probes[i].value, Passes(x, v, more)) {
      var w: World<C, R, D>, ends: seq<nat> :| TakenAt(x, probes[i].value, w) && ComesFrom(x, w, ends, v);
      PassesConcat(x, w, ends, more);
      assert ComesFrom(x, w, ends + more, Passes(x, v, more));
    }
  }

  /** A probe that matches the present state, taken in a window that has not ended. */
  ghost predicate Matches<C(!new), R(!new), D(!new), V(!new)>(x: Machine<C, R, D, V>, p: Probe<C>, v: World<C, R, D>) {
    && x.head(v.core) && !x.interruptible(v.core) && ProbeOk(x, p, v) && p.quietUntil.Some? && p.cycles < v.cycles <= p.quietUntil.value
    && p.core == v.core && p.effectful == v.effectful && p.fills == v.fills
  }

  /** `k` iterations of the loop since `p`, `n` cycles, that fit. */
  predicate Fits<C, R, D, V>(x: Machine<C, R, D, V>, p: Probe<C>, v: World<C, R, D>, end: nat, k: nat, n: nat) {
    && p.cycles < v.cycles && n == Times(k, v.cycles - p.cycles)
    && 0 < n <= x.quiet(v.devices) && v.cycles + n <= end
  }

  /** One iteration of pure cycles has led from the state of `p` to `v`. */
  ghost predicate Looped<C, R, D, V>(x: Machine<C, R, D, V>, p: Probe<C>, v: World<C, R, D>) {
    && v.instructions >= p.instructions && v.cacheHits >= p.cacheHits && v.cycles >= p.cycles && Settled(x, v)
    && Cores(x, v.core, v.memory, x.view(v.devices), v.cycles - p.cycles)
       == Some((v.core, v.instructions - p.instructions, v.cacheHits - p.cacheHits))
  }

  /** The first probe of the loop head at `head`. */
  predicate FirstAt<C, R, D, V>(x: Machine<C, R, D, V>, probes: seq<Option<Probe<C>>>, head: nat, slot: nat) {
    && slot < |probes| && probes[slot].Some? && x.pc(probes[slot].value.core) == head
    && forall i :: 0 <= i < slot && probes[i].Some? ==> x.pc(probes[i].value.core) != head
  }

  /** No probe of that head. */
  predicate NoneAt<C, R, D, V>(x: Machine<C, R, D, V>, probes: seq<Option<Probe<C>>>, head: nat) {
    forall i :: 0 <= i < |probes| && probes[i].Some? ==> x.pc(probes[i].value.core) != head
  }

  /** The loop has come round: the same core as at the probe, later, with no effect and no fill in between. */
  predicate Repeated<C(==), R, D, V>(x: Machine<C, R, D, V>, p: Probe<C>, v: World<C, R, D>) {
    v.cycles > p.cycles && p.effectful == v.effectful && p.fills == v.fills && p.core == v.core && !x.interruptible(v.core)
  }

  /** It has come round within a quiet window, and another iteration fits what is left of window and budget. */
  predicate Skippable<C(==), R, D, V>(x: Machine<C, R, D, V>, p: Probe<C>, v: World<C, R, D>, end: nat) {
    && Repeated(x, p, v) && p.quietUntil.Some? && v.cycles <= p.quietUntil.value
    && v.cycles - p.cycles <= x.quiet(v.devices) && v.cycles + (v.cycles - p.cycles) <= end
  }

  /** As many whole iterations later as fit. */
  ghost predicate LeaptFar<C, R, D, V>(x: Machine<C, R, D, V>, p: Probe<C>, v: World<C, R, D>, end: nat, s: World<C, R, D>) {
    && v.instructions >= p.instructions && v.cacheHits >= p.cacheHits && v.cycles > p.cycles
    && exists k: nat, n: nat ::
         && Fits(x, p, v, end, k, n) && s == Leapt(x, p, v, k, n)
         && (n + (v.cycles - p.cycles) > x.quiet(v.devices) || v.cycles + n + (v.cycles - p.cycles) > end)
  }

  /** A probe taken now. */
  function ProbeOf<C, R, D, V>(x: Machine<C, R, D, V>, v: World<C, R, D>, window: bool): Probe<C> {
    Probe(v.core, v.cycles, v.instructions, v.cacheHits, v.effectful, v.fills,
          if window then Some(v.cycles + x.quiet(v.devices)) else None)
  }

  /** The state `k` iterations on. */
  function Leapt<C, R, D, V>(x: Machine<C, R, D, V>, p: Probe<C>, v: World<C, R, D>, k: nat, n: nat): World<C, R, D>
    requires v.instructions >= p.instructions && v.cacheHits >= p.cacheHits
  {
    Passive(x, v, v.core, n, Times(k, v.instructions - p.instructions), Times(k, v.cacheHits - p.cacheHits))
  }

  /** Between a matching probe and the present state lies one iteration of pure cycles. */
  lemma MatchIsLoop<C(!new), R(!new), D(!new), V(!new)>(x: Machine<C, R, D, V>, p: Probe<C>, v: World<C, R, D>)
    requires Deterministic(x) && Matches(x, p, v)
    ensures Looped(x, p, v)
  {
    var w: World<C, R, D>, ends: seq<nat> :| TakenAt(x, p, w) && ComesFrom(x, w, ends, v);
    LoopObserved(x, w, v, ends);
  }

  /** Whole iterations can be skipped: they are passes of the loop, and the run ends where it would
      have. */
  lemma LoopAllowsSkip<C(!new), R(!new), D(!new), V(!new)>(
    x: Machine<C, R, D, V>, p: Probe<C>, v: World<C, R, D>, end: nat, k: nat, n: nat)
    requires Deterministic(x) && Looped(x, p, v) && Fits(x, p, v, end, k, n)
    ensures var s := Leapt(x, p, v, k, n);
            Timely(x, v, Copies(end, n)) && s == Passes(x, v, Copies(end, n)) && RunOff(x, s, end) == RunOff(x, v, end)
  {
    hide Deterministic;
    SkipFromLoop(x, v, end, v.cycles - p.cycles, v.instructions - p.instructions, v.cacheHits - p.cacheHits, k, n);
  }

  /** Behind the skip the probes are good and the run ends where it would have. */
  lemma AfterLeap<C(!new), R(!new), D(!new), V(!new)>(
    x: Machine<C, R, D, V>, probes: seq<Option<Probe<C>>>, p: Probe<C>, v: World<C, R, D>, end: nat, k: nat, n: nat)
    requires Deterministic(x) && ProbesOk(x, probes, v) && Matches(x, p, v) && Fits(x, p, v, end, k, n)
    ensures v.instructions >= p.instructions && v.cacheHits >= p.cacheHits
    ensures var s := Leapt(x, p, v, k, n);
            && ProbesOk(x, probes, s) && RunOff(x, s, end) == RunOff(x, v, end)
            && v.cycles < s.cycles <= end
  {
    MatchIsLoop(x, p, v);
    LoopAllowsSkip(x, p, v, end, k, n);
    ProbesLater(x, probes, v, Copies(end, n));
  }

  /** As many iterations as fit, and their cycles. */
  method WholeIterations(room: nat, period: nat) returns (iterations: nat, cycles: nat)
    requires period > 0
    ensures cycles == Times(iterations, period) <= room && room - cycles < period
    ensures iterations > 0 ==> cycles >= period
  {
    iterations := room / period;
    cycles := iterations * period;
    assert room == iterations * period + room % period;
  }

  class SpinCpu<!C(!new, ==), !R(!new), !D(!new), !V(!new)> {
    const x: Machine<C, R, D, V>
    var world: World<C, R, D>
    var enabled: bool
    var lastPc: nat
    var probes: seq<Option<Probe<C>>>
    var nextProbe: nat
    var skippedCycles: nat

    ghost predicate Valid()
      reads this
    {
      Deterministic(x) && nextProbe < PROBES && ProbesOk(x, probes, world)
    }

    constructor (x: Machine<C, R, D, V>, world: World<C, R, D>, enabled: bool)
      requires Deterministic(x)
      ensures Valid() && this.x == x && this.world == world && this.enabled == enabled
    {
      this.x, this.world, this.enabled := x, world, enabled;
      lastPc, nextProbe, skippedCycles := 0, 0, 0;
      probes := seq(PROBES, _ => None);
    }

    /** The slot that holds a probe for `head`, or the round-robin victim, emptied. */
    method Slot(head: nat) returns (slot: nat)
      requires Valid()
      modifies this`probes, this`nextProbe
      ensures Valid() && slot < |probes| == 8
      ensures if NoneAt(x, old(probes), head)
              then slot == old(nextProbe) && probes == old(probes)[slot := None] && nextProbe == (slot + 1) % 8
              else FirstAt(x, old(probes), head, slot) && probes == old(probes) && nextProbe == old(nextProbe)
    {
      slot := 0;
      while slot < PROBES
        invariant slot <= PROBES
        invariant forall i :: 0 <= i < slot && probes[i].Some? ==> x.pc(probes[i].value.core) != head
      {
        if probes[slot].Some? && x.pc(probes[slot].value.core) == head {
          return;
        }
        slot := slot + 1;
      }
      slot := nextProbe;
      nextProbe := if slot + 1 == PROBES then 0 else slot + 1;
      probes := probes[slot := None];
    }

    /** Takes a probe here. */
    method Remember(slot: nat, quietUntil: Option<nat>)
      requires Valid() && slot < PROBES
      requires quietUntil.Some? ==> quietUntil.value == world.cycles + x.quiet(world.devices)
      modifies this`probes
      ensures Valid() && probes == old(probes)[slot := Some(ProbeOf(x, world, quietUntil.Some?))]
    {
      var p := Probe(world.core, world.cycles, world.instructions, world.cacheHits, world.effectful, world.fills, quietUntil);
      FreshProbe(x, p, world);
      probes := probes[slot := Some(p)];
    }

    /** `skip_spin`, at an instruction boundary. At a head reached backwards, with a probe there whose loop has come
        round in a quiet window, it moves as many whole iterations on as fit, at least one, to a state from
        which the run ends where it would have ended anyway. In all other cases it leaves the state alone.
        At such a head it then leaves a probe, with a quiet window if the one before had none and the loop
        has come round. */
    method SkipSpin(end: nat) returns (skipped: bool, ghost slot: nat)
      requires Valid() && world.cycles < end && x.head(world.core)
      modifies this
      ensures Valid() && enabled == old(enabled) && lastPc == x.pc(old(world).core)
      ensures x.pc(old(world).core) > old(lastPc) ==> !skipped && probes == old(probes) && nextProbe == old(nextProbe)
      ensures x.pc(old(world).core) <= old(lastPc) ==>
                var pc, p := x.pc(old(world).core), old(probes);
                && slot < PROBES
                && if NoneAt(x, p, pc) then
                     !skipped && slot == old(nextProbe) && probes == p[slot := Some(ProbeOf(x, world, false))]
                   else
                     && FirstAt(x, p, pc, slot)
                     && (skipped <==> Skippable(x, p[slot].value, old(world), end))
                     && probes == p[slot := Some(ProbeOf(x, world, Repeated(x, p[slot].value, old(world)) && p[slot].value.quietUntil.None?))]
      ensures !skipped ==> world == old(world) && skippedCycles == old(skippedCycles)
      ensures skipped ==> old(world).cycles < world.cycles <= end && RunOff(x, world, end) == RunOff(x, old(world), end)
      ensures skipped ==> slot < PROBES && old(probes)[slot].Some? && LeaptFar(x, old(probes)[slot].value, old(world), end, world)
                          && skippedCycles == old(skippedCycles) + (world.cycles - old(world).cycles)
    {
      slot := 0;
      skipped := false;
      var pc := x.pc(world.core);
      var backward := pc <= lastPc;
      lastPc := pc;
      if !backward {
        return;
      }
      var at := Slot(pc);
      slot := at;
      if probes[at].None? {
        Remember(at, None);
        return;
      }
      var probe := probes[at].value;
      var repeated := world.cycles > probe.cycles && probe.effectful == world.effectful && probe.fills == world.fills
                      && probe.core == world.core && !x.interruptible(world.core);
      if !repeated {
        Remember(at, None);
        return;
      }
      if probe.quietUntil.None? {
        Remember(at, Some(world.cycles + x.quiet(world.devices)));
        return;
      }
      if world.cycles > probe.quietUntil.value {
        Remember(at, None);
        return;
      }
      skipped := SkipIterations(at, probe, end);
    }

    /** The end of `skip_spin`: as many whole iterations as fit the quiet window and the budget. */
    method SkipIterations(slot: nat, probe: Probe<C>, end: nat) returns (skipped: bool)
      requires Valid() && slot < PROBES && Matches(x, probe, world) && world.cycles < end
      modifies this`world, this`skippedCycles, this`probes
      ensures Valid() && probes == old(probes)[slot := Some(ProbeOf(x, world, false))]
      ensures skipped <==> Skippable(x, probe, old(world), end)
      ensures !skipped ==> world == old(world) && skippedCycles == old(skippedCycles)
      ensures skipped ==> old(world).cycles < world.cycles <= end && RunOff(x, world, end) == RunOff(x, old(world), end)
      ensures skipped ==> LeaptFar(x, probe, old(world), end, world)
                          && skippedCycles == old(skippedCycles) + (world.cycles - old(world).cycles)
    {
      hide Deterministic, ProbesOk, ProbeOk, RunOff;
      skipped := false;
      var period := world.cycles - probe.cycles;
      var quiet := x.quiet(world.devices);
      var room := if quiet < end - world.cycles then quiet else end - world.cycles;
      var iterations, cycles := WholeIterations(room, period);
      if iterations == 0 {
        Remember(slot, None);
        return;
      }
      ghost var v := world;
      Leap(probe, iterations, cycles, end);
      Remember(slot, None);
      skipped := true;
      assert Fits(x, probe, v, end, iterations, cycles) && world == Leapt(x, probe, v, iterations, cycles);
    }

    /** Moves the clocks and counters by whole iterations of the loop that `probe` observed. */
    method Leap(probe: Probe<C>, iterations: nat, cycles: nat, end: nat)
      requires Valid() && Matches(x, probe, world) && Fits(x, probe, world, end, iterations, cycles)
      modifies this`world, this`skippedCycles
      ensures Valid() && skippedCycles == old(skippedCycles) + cycles
      ensures old(world).instructions >= probe.instructions && old(world).cacheHits >= probe.cacheHits
      ensures world == Leapt(x, probe, old(world), iterations, cycles)
      ensures old(world).cycles < world.cycles <= end && RunOff(x, world, end) == RunOff(x, old(world), end)
    {
      AfterLeap(x, probes, probe, world, end, iterations, cycles);
      skippedCycles := skippedCycles + cycles;
      world := Leapt(x, probe, world, iterations, cycles);
    }

    /** `run_inner`: with or without skipping, for every machine, state and budget, the run ends in
        the state of the run that never skips. */
    method RunInner(maxCycles: nat)
      requires Valid()
      modifies this
      ensures Valid() && enabled == old(enabled)
      ensures world == RunOff(x, old(world), old(world).cycles + maxCycles)
      ensures !enabled ==> skippedCycles == old(skippedCycles)
    {
      var end := world.cycles + maxCycles;
      while world.cycles < end
        invariant Valid() && enabled == old(enabled) && world.cycles <= end
        invariant !enabled ==> skippedCycles == old(skippedCycles)
        invariant RunOff(x, world, end) == RunOff(x, old(world), end)
        decreases end - world.cycles
      {
        if enabled && x.head(world.core) {
          var skipped, _ := SkipSpin(end);
          if skipped {
            continue;
          }
        }
        ghost var v := world;
        OnePass(x, probes, v, end);
        world := x.pass(world, end);
      }
    }
  }

  lemma OnePass<C(!new), R(!new), D(!new), V(!new)>(
    x: Machine<C, R, D, V>, probes: seq<Option<Probe<C>>>, v: World<C, R, D>, end: nat)
    requires Deterministic(x) && ProbesOk(x, probes, v) && v.cycles < end
    ensures v.cycles < x.pass(v, end).cycles <= end && RunOff(x, x.pass(v, end), end) == RunOff(x, v, end)
    ensures ProbesOk(x, probes, x.pass(v, end))
  {
    assert [end][..0] == [];
    assert Passes(x, v, [end]) == x.pass(v, end);
    ProbesLater(x, probes, v, [end]);
  }
}
