/**
 Relaxed device time: the bus defers idle cycles and catches up later. Whatever the CPU can see of
 the interrupt controller is, at every moment, what ticking every cycle would have shown.
 */
module BusRelaxed {
  import opened Simulation
  import opened BusClock

  /** Most cycles that may be deferred. */
  const WINDOW: nat := 256

  /** The bus with its disk clock. `busy` means that expansion cards are installed or that DMA or
      the disk is at work, so that every cycle counts. */
  datatype Machine<!P, !C> = Machine(bus: Bus<P, C>, disk: nat, busy: bool)

  /** `busyTick` is a device cycle while DMA, the disk or a card may act. */
  datatype Setup<!P, !C> = Setup(d: DeviceModel<P, C>, mask: set<nat>, busyTick: Machine<P, C> -> Machine<P, C>)

  function StrictTick<P, C>(u: Setup<P, C>, m: Machine<P, C>): Machine<P, C> {
    if m.busy then u.busyTick(m) else m.(bus := Tick(u.d, u.mask, m.bus), disk := m.disk + 1)
  }

  function OneStrict<P, C>(u: Setup<P, C>): Machine<P, C> -> Machine<P, C> {
    (m: Machine<P, C>) => StrictTick(u, m)
  }

  function StrictTicks<P, C>(u: Setup<P, C>, m: Machine<P, C>, n: nat): Machine<P, C> {
    Repeat(OneStrict(u), m, n)
  }

  /** An idle bus has no cards, and its interrupt controller is up to date. */
  predicate Sound<P, C>(u: Setup<P, C>, m: Machine<P, C>) {
    !m.busy ==> m.bus.clock <= MAX_CLOCK && NoCards(m.bus) && Fresh(u.d, u.mask, m.bus)
  }

  predicate NoCards<P, C>(b: Bus<P, C>) {
    forall i :: 0 <= i < |b.slots| ==> b.slots[i].Empty?
  }

  ghost predicate Trusted<P(!new), C(!new)>(u: Setup<P, C>) {
    Contract(u.d) && forall m :: Sound(u, m) ==> Sound(u, u.busyTick(m))
  }

  // ---- the relaxed bus ----

  datatype Relaxed<!P, !C> = Relaxed(m: Machine<P, C>, deferred: nat, limit: nat)

  /** How far away the next event is, at most the window. With idle devices only the timer counts. */
  function Limit<P, C>(d: DeviceModel<P, C>, b: Bus<P, C>): (n: nat)
    ensures 1 <= n <= WINDOW
  {
    var u := d.untilIrq(b.timer);
    if u.None? || u.value > WINDOW then WINDOW else if u.value == 0 then 1 else u.value
  }

  /** `native_idle_budget`. */
  function Budget<P, C>(u: Setup<P, C>, r: Relaxed<P, C>): nat {
    if r.deferred != 0 then (if r.limit > r.deferred then r.limit - r.deferred - 1 else 0)
    else if r.m.busy then 0
    else Limit(u.d, r.m.bus) - 1
  }

  /** `flush_relaxed_devices`. */
  function Flush<P, C>(u: Setup<P, C>, r: Relaxed<P, C>): Relaxed<P, C> {
    if r.deferred == 0 then r
    else Relaxed(Machine(Ticks(u.d, u.mask, r.m.bus, r.deferred), r.m.disk + r.deferred, r.m.busy), 0, r.limit)
  }

  function OpenWindow<P, C>(u: Setup<P, C>, r: Relaxed<P, C>): Relaxed<P, C> {
    if r.deferred == 0 then r.(limit := Limit(u.d, r.m.bus)) else r
  }

  /** `tick_relaxed_devices`. */
  function RelaxedTick<P, C>(u: Setup<P, C>, r: Relaxed<P, C>): Relaxed<P, C> {
    if r.deferred == 0 && r.m.busy then r.(m := StrictTick(u, r.m))
    else
      var s := OpenWindow(u, r);
      var t := s.(deferred := s.deferred + 1);
      if t.deferred >= t.limit then Flush(u, t) else t
  }

  /** `defer_native_idle_cycles`. */
  function Defer<P, C>(u: Setup<P, C>, r: Relaxed<P, C>, cycles: nat): Relaxed<P, C> {
    var s := OpenWindow(u, r);
    s.(deferred := s.deferred + cycles)
  }

  // ---- idle time ----

  /** Before the timer's deadline, idle cycles move the clocks and nothing else. */
  lemma {:induction false} IdleTicks<P(!new), C(!new)>(d: DeviceModel<P, C>, mask: set<nat>, b: Bus<P, C>, n: nat)
    requires Contract(d) && NoCards(b) && Fresh(d, mask, b) && b.clock <= MAX_CLOCK
    requires d.untilIrq(b.timer).None? || n < Wait(d, b.timer)
    ensures var k := if b.clock + n <= MAX_CLOCK then n else MAX_CLOCK - b.clock;
            Ticks(d, mask, b, n) == Pass(d, b, k) && Fresh(d, mask, Ticks(d, mask, b, n))
  {
    hide Contract, Fresh, Ticks, Tick, NoCards;
    if n == 0 {
      NoTicks(d, mask, b);
      PassNone(d, b);
    } else {
      IdleTicks(d, mask, b, n - 1);
      TicksStep(d, mask, b, n - 1);
      var j := if b.clock + (n - 1) <= MAX_CLOCK then n - 1 else MAX_CLOCK - b.clock;
      OneIdleTick(d, mask, b, j);
    }
  }

  lemma OneIdleTick<P(!new), C(!new)>(d: DeviceModel<P, C>, mask: set<nat>, b: Bus<P, C>, j: nat)
    requires Contract(d) && NoCards(b) && Fresh(d, mask, b) && b.clock + j <= MAX_CLOCK
    requires d.untilIrq(b.timer).None? || j + 1 < Wait(d, b.timer) || (b.clock + j == MAX_CLOCK && j < Wait(d, b.timer))
    ensures var v := Pass(d, b, j);
            var w := if b.clock + j < MAX_CLOCK then Pass(d, b, j + 1) else v;
            Tick(d, mask, v) == w && Fresh(d, mask, w)
  {
    hide Contract, Fresh, Refresh, RunDue, AnyDue, Settled, Pass;
    var v := Pass(d, b, j);
    NoneDue(d, b);
    IdleSettled(d, mask, b, j);
    if b.clock + j < MAX_CLOCK {
      PassAdds(d, b, j, 1);
      IdleSettled(d, mask, b, j + 1);
    }
  }

  lemma NoneDue<P, C>(d: DeviceModel<P, C>, b: Bus<P, C>)
    requires NoCards(b)
    ensures !AnyDue(d, b)
  {
  }

  /** Without cards, a bus whose timer keeps its level has nothing to deliver. */
  lemma IdleSettled<P(!new), C(!new)>(d: DeviceModel<P, C>, mask: set<nat>, b: Bus<P, C>, k: nat)
    requires Contract(d) && NoCards(b) && Fresh(d, mask, b) && (d.untilIrq(b.timer).None? || k < Wait(d, b.timer))
    ensures var v := Pass(d, b, k);
            Fresh(d, mask, v) && !AnyDue(d, v) && Refresh(d, mask, RunDue(d, v)) == v && v.clock == b.clock + k
  {
    hide Contract, Fresh, Refresh, RunDue, AnyDue;
    PassKeepsFresh(d, mask, b, k);
    NoneDue(d, Pass(d, b, k));
    Deliver(d, mask, Pass(d, b, k));
  }

  lemma {:induction false} StrictIdle<P, C>(u: Setup<P, C>, m: Machine<P, C>, n: nat)
    requires !m.busy
    ensures StrictTicks(u, m, n) == Machine(Ticks(u.d, u.mask, m.bus, n), m.disk + n, false)
  {
    hide Ticks, Tick;
    if n == 0 {
      NoTicks(u.d, u.mask, m.bus);
    } else {
      StrictIdle(u, m, n - 1);
      TicksStep(u.d, u.mask, m.bus, n - 1);
    }
  }

  lemma LimitIsBeforeDeadline<P, C>(d: DeviceModel<P, C>, b: Bus<P, C>)
    ensures d.untilIrq(b.timer).None? || Limit(d, b) <= Wait(d, b.timer)
  {
  }

  // ---- lag ----

  /** The relaxed bus owes `deferred` cycles to a bus that is ticked strictly. */
  ghost predicate Lag<P, C>(u: Setup<P, C>, r: Relaxed<P, C>, t: Machine<P, C>) {
    && Sound(u, r.m) && t == StrictTicks(u, r.m, r.deferred)
    && (r.deferred > 0 ==> !r.m.busy && r.deferred < r.limit && r.limit == Limit(u.d, r.m.bus))
  }

  /** What lag means: less than the window is owed, no cycle is lost or counted twice, and the
      interrupt controller is the strict one's. */
  lemma LagIsInvisible<P(!new), C(!new)>(u: Setup<P, C>, r: Relaxed<P, C>, t: Machine<P, C>)
    requires Trusted(u) && Lag(u, r, t)
    ensures r.deferred < WINDOW && t.bus.irq == r.m.bus.irq && t.bus.slots == r.m.bus.slots && t.busy == r.m.busy
    ensures !t.busy ==> t.disk == r.m.disk + r.deferred
    ensures !t.busy && r.m.bus.clock + r.deferred <= MAX_CLOCK ==> t.bus.clock == r.m.bus.clock + r.deferred
  {
    if r.deferred > 0 {
      StrictIdle(u, r.m, r.deferred);
      LimitIsBeforeDeadline(u.d, r.m.bus);
      IdleTicks(u.d, u.mask, r.m.bus, r.deferred);
    } else {
      assert t == r.m;
    }
  }

  /** A flush catches up exactly. */
  lemma FlushCatchesUp<P(!new), C(!new)>(u: Setup<P, C>, r: Relaxed<P, C>, t: Machine<P, C>)
    requires Trusted(u) && Sound(u, r.m) && t == StrictTicks(u, r.m, r.deferred) && (r.deferred > 0 ==> !r.m.busy)
    ensures Flush(u, r).m == t && Flush(u, r).deferred == 0 && Sound(u, t)
  {
    if r.deferred > 0 {
      StrictIdle(u, r.m, r.deferred);
      StrictStaysSound(u, r.m, r.deferred);
    }
  }

  lemma {:induction false} StrictStaysSound<P(!new), C(!new)>(u: Setup<P, C>, m: Machine<P, C>, n: nat)
    requires Trusted(u) && Sound(u, m)
    ensures Sound(u, StrictTicks(u, m, n))
  {
    if n == 0 {
    } else {
      StrictStaysSound(u, m, n - 1);
      TickStaysSound(u, StrictTicks(u, m, n - 1));
    }
  }

  lemma TickStaysSound<P(!new), C(!new)>(u: Setup<P, C>, m: Machine<P, C>)
    requires Trusted(u) && Sound(u, m)
    ensures Sound(u, StrictTick(u, m))
  {
    if !m.busy {
      Deliver(u.d, u.mask, m.bus);
      Deliver(u.d, u.mask, Pass(u.d, m.bus, 1));
    }
  }

  // ---- runs ----

  /** Bus activity of a CPU run; an access may change the devices in any sound way. */
  datatype Op<!P, !C> = TickOp | DeferOp(cycles: nat) | FlushOp | AccessOp(effect: Machine<P, C> -> Machine<P, C>)

  function Step<P, C>(u: Setup<P, C>, r: Relaxed<P, C>, op: Op<P, C>): Relaxed<P, C> {
    match op
    case TickOp => RelaxedTick(u, r)
    case DeferOp(cycles) => Defer(u, r, cycles)
    case FlushOp => Flush(u, r)
    case AccessOp(effect) => var s := Flush(u, r); s.(m := effect(s.m))
  }

  /** The same activity on a bus that is ticked every cycle. */
  function StrictStep<P, C>(u: Setup<P, C>, t: Machine<P, C>, op: Op<P, C>): Machine<P, C> {
    match op
    case TickOp => StrictTick(u, t)
    case DeferOp(cycles) => StrictTicks(u, t, cycles)
    case FlushOp => t
    case AccessOp(effect) => effect(t)
  }

  /** Native code defers within its budget, and accesses leave the bus sound. */
  ghost predicate Allowed<P(!new), C(!new)>(u: Setup<P, C>, r: Relaxed<P, C>, op: Op<P, C>) {
    && (op.DeferOp? ==> op.cycles <= Budget(u, r))
    && (op.AccessOp? ==> forall m :: Sound(u, m) ==> Sound(u, op.effect(m)))
  }

  lemma StepKeepsLag<P(!new), C(!new)>(u: Setup<P, C>, r: Relaxed<P, C>, t: Machine<P, C>, op: Op<P, C>)
    requires Trusted(u) && Lag(u, r, t) && Allowed(u, r, op)
    ensures Lag(u, Step(u, r, op), StrictStep(u, t, op))
  {
    match op {
      case TickOp => TickKeepsLag(u, r, t);
      case DeferOp(cycles) =>
        RepeatAdd(OneStrict(u), r.m, r.deferred, cycles);
      case FlushOp => FlushCatchesUp(u, r, t);
      case AccessOp(effect) => FlushCatchesUp(u, r, t);
    }
  }

  lemma TickKeepsLag<P(!new), C(!new)>(u: Setup<P, C>, r: Relaxed<P, C>, t: Machine<P, C>)
    requires Trusted(u) && Lag(u, r, t)
    ensures Lag(u, RelaxedTick(u, r), StrictTick(u, t))
  {
    if r.deferred == 0 && r.m.busy {
      TickStaysSound(u, r.m);
    } else {
      var s := OpenWindow(u, r);
      var v := s.(deferred := s.deferred + 1);
      if v.deferred >= v.limit {
        FlushCatchesUp(u, v, StrictTick(u, t));
      }
    }
  }

  function Run<P, C>(u: Setup<P, C>, r: Relaxed<P, C>, ops: seq<Op<P, C>>): Relaxed<P, C> {
    Iterate((q: Relaxed<P, C>, op: Op<P, C>) => Step(u, q, op), r, ops)
  }

  function StrictRun<P, C>(u: Setup<P, C>, t: Machine<P, C>, ops: seq<Op<P, C>>): Machine<P, C> {
    Iterate((q: Machine<P, C>, op: Op<P, C>) => StrictStep(u, q, op), t, ops)
  }

  ghost predicate AllAllowed<P(!new), C(!new)>(u: Setup<P, C>, r: Relaxed<P, C>, ops: seq<Op<P, C>>)
    decreases |ops|
  {
    ops == [] || (Allowed(u, r, ops[0]) && AllAllowed(u, Step(u, r, ops[0]), ops[1..]))
  }

  /** Main result: over every run of ticks, native deferrals, accesses and flushes, the relaxed bus
      shows the interrupt requests of strict ticking, owes less than 256 cycles, and loses none. */
  lemma {:induction false} RelaxedFollowsStrict<P(!new), C(!new)>(
    u: Setup<P, C>, r: Relaxed<P, C>, t: Machine<P, C>, ops: seq<Op<P, C>>)
    requires Trusted(u) && Lag(u, r, t) && AllAllowed(u, r, ops)
    ensures var (x, y) := (Run(u, r, ops), StrictRun(u, t, ops));
            && Lag(u, x, y) && x.deferred < WINDOW && x.m.bus.irq == y.bus.irq
            && Flush(u, x).m == y
    decreases |ops|
  {
    if ops == [] {
      LagIsInvisible(u, r, t);
      FlushCatchesUp(u, r, t);
    } else {
      StepKeepsLag(u, r, t, ops[0]);
      RelaxedFollowsStrict(u, Step(u, r, ops[0]), StrictStep(u, t, ops[0]), ops[1..]);
    }
  }
}
