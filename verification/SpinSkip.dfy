/**
 Fast-forwarding loops that poll unchanging inputs: a run with skipping ends in exactly the state of
 a run without it.
 */
module SpinSkip {
  import opened Wrappers

  /** CPU and devices. `core` is the state that decides what happens next: registers, PC, mode,
      system and interrupt state and the position inside an instruction. */
  datatype World<!C, !R, !D> = World(
    core: C, cycles: nat, runningCycles: nat, instructions: nat, cacheHits: nat,
    effectful: nat, fills: nat, memory: R, devices: D)

  /** The CPU loop's surroundings. `pass` is one pass of the loop without skipping, towards the end
      cycle: a CPU cycle, and the jump of a halted CPU to the next event. `running` says that the
      next cycle executes something, also by waking up, as long as the view stays, and `sampled` that
      the CPU has seen the present interrupt lines; it is `settled` if moreover no interrupt is about
      to slip past a HALT. `quiet` is how many device cycles change
      nothing but clocks, `advance` passes such cycles, and `view` is what reads can see of the
      devices. `pure` is a cycle without effects that leaves the CPU running. */
  datatype Machine<!C, !R, !D, !V> = Machine(
    running: (C, V) -> bool,
    sampled: (C, V) -> bool,
    settled: (C, V) -> bool,
    head: C -> bool,
    pc: C -> nat,
    interruptible: C -> bool,
    pass: (World<C, R, D>, nat) -> World<C, R, D>,
    quiet: D -> nat,
    advance: (D, nat) -> D,
    view: D -> V,
    pure: (C, R, V) -> Option<(C, nat, nat)>)

  predicate Runs<C, R, D, V>(x: Machine<C, R, D, V>, w: World<C, R, D>) {
    x.running(w.core, x.view(w.devices))
  }

  predicate Settled<C, R, D, V>(x: Machine<C, R, D, V>, w: World<C, R, D>) {
    x.settled(w.core, x.view(w.devices))
  }

  /** A CPU cycle in a quiet window without effects: the new core and what it adds to the
      instruction and hit counts. */
  function Pure<C, R, D, V>(x: Machine<C, R, D, V>, w: World<C, R, D>): Option<(C, nat, nat)> {
    x.pure(w.core, w.memory, x.view(w.devices))
  }

  function Passive<C, R, D, V>(x: Machine<C, R, D, V>, w: World<C, R, D>, core: C, n: nat, instructions: nat, hits: nat)
    : World<C, R, D>
  {
    w.(core := core, cycles := w.cycles + n, runningCycles := w.runningCycles + n,
       instructions := w.instructions + instructions, cacheHits := w.cacheHits + hits, devices := x.advance(w.devices, n))
  }

  /** What the bus and the CPU promise. */
  ghost predicate Deterministic<C(!new), R(!new), D(!new), V(!new)>(x: Machine<C, R, D, V>) {
    && Progress(x) && ClocksAdd(x) && QuietWindows(x) && QuietPasses(x) && PureCycles(x)
    && LoopHeads(x)
  }

  /** At an instruction boundary the CPU runs; with no interrupt to take there, it is settled. */
  ghost predicate LoopHeads<C(!new), R(!new), D(!new), V(!new)>(x: Machine<C, R, D, V>) {
    forall c: C, view: V :: x.head(c) ==>
      x.running(c, view) && (x.sampled(c, view) && !x.interruptible(c) ==> x.settled(c, view))
  }

  /** Time passes but not beyond the end, and the counters of effects and fills never go back. */
  ghost predicate Progress<C(!new), R(!new), D(!new), V(!new)>(x: Machine<C, R, D, V>) {
    forall w: World<C, R, D>, end: nat :: w.cycles < end ==>
      var v := x.pass(w, end);
      w.cycles < v.cycles <= end && w.effectful <= v.effectful && w.fills <= v.fills
  }

  /** Device cycles add up, one by one. */
  ghost predicate ClocksAdd<C(!new), R(!new), D(!new), V(!new)>(x: Machine<C, R, D, V>) {
    && (forall d: D :: x.advance(d, 0) == d)
    && (forall d: D, n: nat :: x.advance(x.advance(d, n), 1) == x.advance(d, n + 1))
  }

  /** Quiet ones shorten the window by no more than themselves, and cannot be seen. */
  ghost predicate QuietWindows<C(!new), R(!new), D(!new), V(!new)>(x: Machine<C, R, D, V>) {
    forall d: D, n: nat :: n <= x.quiet(d) ==>
      x.quiet(x.advance(d, n)) >= x.quiet(d) - n && x.view(x.advance(d, n)) == x.view(d)
  }

  /** A pass that counts an effect or a fill, or ends behind the quiet window it began in. */
  predicate Leaves<C, R, D, V>(x: Machine<C, R, D, V>, w: World<C, R, D>, v: World<C, R, D>) {
    v.effectful > w.effectful || v.fills > w.fills || v.cycles > w.cycles + x.quiet(w.devices)
  }

  /** Any other pass stays in the window: nothing that reads can see has changed, and the CPU has
      sampled its interrupt lines. */
  ghost predicate QuietPasses<C(!new), R(!new), D(!new), V(!new)>(x: Machine<C, R, D, V>) {
    forall w: World<C, R, D>, end: nat :: w.cycles < end && x.quiet(w.devices) >= 1 ==>
      Leaves(x, w, x.pass(w, end)) || Stays(x, w, x.pass(w, end))
  }

  predicate Stays<C, R, D, V(==)>(x: Machine<C, R, D, V>, w: World<C, R, D>, v: World<C, R, D>) {
    && v.cycles + x.quiet(v.devices) >= w.cycles + x.quiet(w.devices)
    && x.view(v.devices) == x.view(w.devices) && x.sampled(v.core, x.view(v.devices))
  }

  /** Once settled, a cycle of a running CPU depends only on its core, memory and what it can see, and
      unless it halts it changes nothing else; a halted CPU stays halted. */
  ghost predicate PureCycles<C(!new), R(!new), D(!new), V(!new)>(x: Machine<C, R, D, V>) {
    forall w: World<C, R, D>, end: nat :: w.cycles < end && x.quiet(w.devices) >= 1 && Settled(x, w) ==>
      var p, v := Pure(x, w), x.pass(w, end);
      if Runs(x, w) && p.Some? then v == Passive(x, w, p.value.0, 1, p.value.1, p.value.2) && Settled(x, v)
      else Leaves(x, w, v) || (!Runs(x, v) && Settled(x, v))
  }

  // ---- runs without skipping ----

  function RunOff<C, R, D, V>(x: Machine<C, R, D, V>, w: World<C, R, D>, end: nat): World<C, R, D>
    decreases end - w.cycles
  {
    if w.cycles >= end then w
    else
      var v := x.pass(w, end);
      if v.cycles <= w.cycles then w else RunOff(x, v, end)
  }

  /** The passes towards the given ends, one after the other. */
  function Passes<C, R, D, V>(x: Machine<C, R, D, V>, w: World<C, R, D>, ends: seq<nat>): World<C, R, D> {
    if ends == [] then w else x.pass(Passes(x, w, ends[..|ends| - 1]), ends[|ends| - 1])
  }

  /** Every pass started before its end. */
  predicate Timely<C, R, D, V>(x: Machine<C, R, D, V>, w: World<C, R, D>, ends: seq<nat>) {
    ends == [] || (Timely(x, w, ends[..|ends| - 1]) && Passes(x, w, ends[..|ends| - 1]).cycles < ends[|ends| - 1])
  }

  // ---- one iteration of a polling loop ----

  lemma {:induction false} CountersGrow<C(!new), R(!new), D(!new), V(!new)>(
    x: Machine<C, R, D, V>, w: World<C, R, D>, ends: seq<nat>, n: nat)
    requires Progress(x) && Timely(x, w, ends) && n <= |ends|
    ensures Timely(x, w, ends[..n])
    ensures Passes(x, w, ends[..n]).effectful <= Passes(x, w, ends).effectful
    ensures Passes(x, w, ends[..n]).fills <= Passes(x, w, ends).fills
    ensures Passes(x, w, ends[..n]).cycles + (|ends| - n) <= Passes(x, w, ends).cycles
    decreases |ends|
  {
    if n < |ends| {
      var m := |ends| - 1;
      CountersGrow(x, w, ends[..m], n);
      assert ends[..m][..n] == ends[..n];
    } else {
      assert ends[..n] == ends;
    }
  }

  /** A stretch of the run that ends inside the quiet window it began in, with no effect and no fill,
      has stayed in it all along. */
  lemma {:induction false} InWindow<C(!new), R(!new), D(!new), V(!new)>(
    x: Machine<C, R, D, V>, w: World<C, R, D>, ends: seq<nat>, n: nat)
    requires Deterministic(x) && Timely(x, w, ends) && n <= |ends| && !Leaves(x, w, Passes(x, w, ends))
    ensures var u := Passes(x, w, ends[..n]);
            && Timely(x, w, ends[..n]) && !Leaves(x, w, u)
            && u.cycles + x.quiet(u.devices) >= w.cycles + x.quiet(w.devices)
            && x.view(u.devices) == x.view(w.devices) && (n > 0 ==> x.sampled(u.core, x.view(u.devices)))
            && (Settled(x, w) ==> Settled(x, u))
    decreases n
  {
    CountersGrow(x, w, ends, n);
    assert ends[..0] == [];
    if n == 0 {
    } else {
      InWindow(x, w, ends, n - 1);
      CountersGrow(x, w, ends[..n], n - 1);
      CountersGrow(x, w, ends[..n], 0);
      assert ends[..n][..n - 1] == ends[..n - 1] && ends[..n][..0] == [];
      CountersGrow(x, w, ends[..n - 1], 0);
      assert ends[..n - 1][..0] == [];
      StillInWindow(x, w, Passes(x, w, ends[..n - 1]), ends[n - 1]);
    }
  }

  /** One pass of such a stretch. */
  lemma StillInWindow<C(!new), R(!new), D(!new), V(!new)>(
    x: Machine<C, R, D, V>, w: World<C, R, D>, u: World<C, R, D>, end: nat)
    requires Deterministic(x) && u.cycles < end
    requires u.cycles + x.quiet(u.devices) >= w.cycles + x.quiet(w.devices) && x.view(u.devices) == x.view(w.devices)
    requires w.effectful <= u.effectful && w.fills <= u.fills && !Leaves(x, w, x.pass(u, end))
    ensures !Leaves(x, u, x.pass(u, end)) && Stays(x, u, x.pass(u, end)) && x.quiet(u.devices) >= 1
  {
    assert u.cycles < x.pass(u, end).cycles;
  }

  /** A stretch of pure cycles of a running CPU: the core it ends in, and what it adds to the counts. */
  function Cores<C, R, D, V>(x: Machine<C, R, D, V>, core: C, memory: R, view: V, n: nat): Option<(C, nat, nat)> {
    if n == 0 then Some((core, 0, 0))
    else
      var p := Cores(x, core, memory, view, n - 1);
      if p.None? || !x.running(p.value.0, view) then None
      else
        var q := x.pure(p.value.0, memory, view);
        if q.None? then None else Some((q.value.0, p.value.1 + q.value.1, p.value.2 + q.value.2))
  }

  /** If the CPU has sampled its lines before such a stretch and runs behind it, the stretch is that
      many pure cycles. */
  lemma {:induction false} StretchIsPure<C(!new), R(!new), D(!new), V(!new)>(
    x: Machine<C, R, D, V>, w: World<C, R, D>, ends: seq<nat>)
    requires Deterministic(x) && Timely(x, w, ends) && Settled(x, w)
    requires var v := Passes(x, w, ends); Runs(x, v) && !Leaves(x, w, v)
    ensures var p, v := Cores(x, w.core, w.memory, x.view(w.devices), |ends|), Passes(x, w, ends);
            && p.Some? && v == Passive(x, w, p.value.0, |ends|, p.value.1, p.value.2)
            && |ends| <= x.quiet(w.devices) && Settled(x, v)
    decreases |ends|
  {
    if ends == [] {
      assert x.advance(w.devices, 0) == w.devices;
    } else {
      var m := |ends| - 1;
      var u := Passes(x, w, ends[..m]);
      InWindow(x, w, ends, m);
      assert ends[..0] == [];
      CountersGrow(x, w, ends[..m], 0);
      assert ends[..m][..0] == [];
      StillInWindow(x, w, u, ends[m]);
      StretchIsPure(x, w, ends[..m]);
      OnePureCycle(x, w, u, ends[m], m);
    }
  }

  lemma OnePureCycle<C(!new), R(!new), D(!new), V(!new)>(
    x: Machine<C, R, D, V>, w: World<C, R, D>, u: World<C, R, D>, end: nat, m: nat)
    requires Deterministic(x) && u.cycles < end && Runs(x, u) && Settled(x, u)
    requires m <= x.quiet(w.devices) && x.quiet(u.devices) >= 1
    requires var p := Cores(x, w.core, w.memory, x.view(w.devices), m);
             p.Some? && u == Passive(x, w, p.value.0, m, p.value.1, p.value.2)
    requires !Leaves(x, u, x.pass(u, end)) && Runs(x, x.pass(u, end))
    ensures var p := Cores(x, w.core, w.memory, x.view(w.devices), m + 1);
            && p.Some? && x.pass(u, end) == Passive(x, w, p.value.0, m + 1, p.value.1, p.value.2)
            && Settled(x, x.pass(u, end))
  {
    assert x.view(u.devices) == x.view(w.devices);
    assert Pure(x, u).Some?;
    assert x.advance(x.advance(w.devices, m), 1) == x.advance(w.devices, m + 1);
  }

  // ---- repeating it ----

  lemma {:induction false} CoresAdd<C(!new), R(!new), D(!new), V(!new)>(
    x: Machine<C, R, D, V>, core: C, memory: R, view: V, m: nat, n: nat)
    requires Cores(x, core, memory, view, m).Some? && Cores(x, Cores(x, core, memory, view, m).value.0, memory, view, n).Some?
    ensures var p := Cores(x, core, memory, view, m).value;
            var q := Cores(x, p.0, memory, view, n).value;
            Cores(x, core, memory, view, m + n) == Some((q.0, p.1 + q.1, p.2 + q.2))
    decreases n
  {
    if n == 0 {
    } else {
      CoresAdd(x, core, memory, view, m, n - 1);
    }
  }

  lemma {:induction false} LoopRepeats<C(!new), R(!new), D(!new), V(!new)>(
    x: Machine<C, R, D, V>, core: C, memory: R, view: V, period: nat, instructions: nat, hits: nat, k: nat)
    requires Cores(x, core, memory, view, period) == Some((core, instructions, hits))
    ensures Cores(x, core, memory, view, k * period) == Some((core, k * instructions, k * hits))
    decreases k
  {
    if k == 0 {
    } else {
      LoopRepeats(x, core, memory, view, period, instructions, hits, k - 1);
      CoresAdd(x, core, memory, view, (k - 1) * period, period);
      OneMoreTime(k, period);
      OneMoreTime(k, instructions);
      OneMoreTime(k, hits);
    }
  }

  lemma OneMoreTime(k: nat, n: nat)
    requires k > 0
    ensures (k - 1) * n + n == k * n
  {
  }

  function Copies(end: nat, n: nat): seq<nat> {
    seq(n, _ => end)
  }

  /** Pure cycles in the window are passes of the loop. */
  lemma {:induction false} PurePasses<C(!new), R(!new), D(!new), V(!new)>(
    x: Machine<C, R, D, V>, w: World<C, R, D>, end: nat, n: nat)
    requires Deterministic(x) && n <= x.quiet(w.devices) && w.cycles + n <= end && Settled(x, w)
    requires Cores(x, w.core, w.memory, x.view(w.devices), n).Some?
    ensures var p, v := Cores(x, w.core, w.memory, x.view(w.devices), n).value, Passes(x, w, Copies(end, n));
            Timely(x, w, Copies(end, n)) && v == Passive(x, w, p.0, n, p.1, p.2) && Settled(x, v)
    decreases n
  {
    if n == 0 {
      assert x.advance(w.devices, 0) == w.devices;
    } else {
      PurePasses(x, w, end, n - 1);
      assert Copies(end, n)[..n - 1] == Copies(end, n - 1);
      var u := Passes(x, w, Copies(end, n - 1));
      LastPurePass(x, w, u, end, n - 1);
    }
  }

  lemma LastPurePass<C(!new), R(!new), D(!new), V(!new)>(
    x: Machine<C, R, D, V>, w: World<C, R, D>, u: World<C, R, D>, end: nat, m: nat)
    requires Deterministic(x) && m + 1 <= x.quiet(w.devices) && u.cycles < end && Settled(x, u)
    requires Cores(x, w.core, w.memory, x.view(w.devices), m + 1).Some?
    requires var p := Cores(x, w.core, w.memory, x.view(w.devices), m);
             p.Some? && u == Passive(x, w, p.value.0, m, p.value.1, p.value.2)
    ensures var p := Cores(x, w.core, w.memory, x.view(w.devices), m + 1).value;
            x.pass(u, end) == Passive(x, w, p.0, m + 1, p.1, p.2) && Settled(x, x.pass(u, end))
  {
    assert x.view(u.devices) == x.view(w.devices) && x.quiet(u.devices) >= 1;
    assert x.advance(x.advance(w.devices, m), 1) == x.advance(w.devices, m + 1);
    assert !Leaves(x, u, x.pass(u, end));
  }

  // ---- skipping does not change where the run ends ----

  lemma {:induction false} RunOffPasses<C(!new), R(!new), D(!new), V(!new)>(
    x: Machine<C, R, D, V>, w: World<C, R, D>, end: nat, n: nat)
    requires Progress(x) && Timely(x, w, Copies(end, n))
    ensures RunOff(x, Passes(x, w, Copies(end, n)), end) == RunOff(x, w, end)
    decreases n
  {
    if n == 0 {
    } else {
      assert Copies(end, n)[..n - 1] == Copies(end, n - 1);
      RunOffPasses(x, w, end, n - 1);
      var u := Passes(x, w, Copies(end, n - 1));
      assert u.cycles < x.pass(u, end).cycles;
    }
  }

  lemma {:induction false} PassesConcat<C(!new), R(!new), D(!new), V(!new)>(
    x: Machine<C, R, D, V>, w: World<C, R, D>, a: seq<nat>, b: seq<nat>)
    requires Timely(x, w, a) && Timely(x, Passes(x, w, a), b)
    ensures Timely(x, w, a + b) && Passes(x, w, a + b) == Passes(x, Passes(x, w, a), b)
    decreases |b|
  {
    if b == [] {
      assert a + b == a;
    } else {
      var m := |b| - 1;
      PassesConcat(x, w, a, b[..m]);
      assert (a + b)[..|a + b| - 1] == a + b[..m] && (a + b)[|a + b| - 1] == b[m];
    }
  }

  /** A loop that was observed for one iteration in a quiet window runs in pure cycles. */
  lemma LoopObserved<C(!new), R(!new), D(!new), V(!new)>(
    x: Machine<C, R, D, V>, w: World<C, R, D>, v: World<C, R, D>, ends: seq<nat>)
    requires Deterministic(x) && Timely(x, w, ends) && v == Passes(x, w, ends) && !Leaves(x, w, v)
    requires v.core == w.core && v.cycles > w.cycles && x.head(v.core) && !x.interruptible(v.core)
    ensures v.instructions >= w.instructions && v.cacheHits >= w.cacheHits && Settled(x, v)
    ensures Cores(x, v.core, v.memory, x.view(v.devices), v.cycles - w.cycles)
         == Some((v.core, v.instructions - w.instructions, v.cacheHits - w.cacheHits))
  {
    InWindow(x, w, ends, |ends|);
    assert ends[..|ends|] == ends;
    StretchIsPure(x, w, ends);
  }

  function Times(k: nat, n: nat): nat {
    k * n
  }

  /** The end of a skip: `k` whole iterations, `n` cycles. */
  lemma SkipFromLoop<C(!new), R(!new), D(!new), V(!new)>(
    x: Machine<C, R, D, V>, v: World<C, R, D>, end: nat, period: nat, instructions: nat, hits: nat, k: nat, n: nat)
    requires Deterministic(x) && Settled(x, v) && n == Times(k, period) && n <= x.quiet(v.devices) && v.cycles + n <= end
    requires Cores(x, v.core, v.memory, x.view(v.devices), period) == Some((v.core, instructions, hits))
    ensures var s := Passive(x, v, v.core, n, Times(k, instructions), Times(k, hits));
            && Timely(x, v, Copies(end, n)) && s == Passes(x, v, Copies(end, n)) && RunOff(x, s, end) == RunOff(x, v, end)
  {
    LoopRepeats(x, v.core, v.memory, x.view(v.devices), period, instructions, hits, k);
    PurePasses(x, v, end, n);
    RunOffPasses(x, v, end, n);
  }
}
