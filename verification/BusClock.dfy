/**
 Device time on the system bus: timers, expansion-card events and interrupt levels, one cycle at a
 time. The devices themselves are abstract; the contract is what the bus relies on.
 */
module BusClock {
  import opened Wrappers
  import opened Simulation

  const MAX_CLOCK: nat := 0xFFFF_FFFF_FFFF_FFFF

  /** The timing device (state `P`) and expansion cards (state `C`). */
  datatype DeviceModel<!P, !C> = DeviceModel(
    advance: (P, nat) -> P,
    untilIrq: P -> Option<nat>,
    timerLevel: P -> bool,
    deadline: C -> Option<nat>,
    runEvent: (C, nat) -> C,
    cardLevel: C -> bool)

  /** Advancing is additive, the timer's level changes at its announced deadline only, and a card
      that ran its event asks for a strictly later one. */
  ghost predicate Contract<P(!new), C(!new)>(d: DeviceModel<P, C>) {
    && (forall p: P :: d.advance(p, 0) == p)
    && (forall p: P, m: nat, n: nat :: d.advance(d.advance(p, m), n) == d.advance(p, m + n))
    && (forall p: P, n: nat :: n < Wait(d, p) || d.untilIrq(p).None? ==> d.timerLevel(d.advance(p, n)) == d.timerLevel(p))
    && (forall c: C, now: nat :: d.deadline(d.runEvent(c, now)).Some? ==> d.deadline(d.runEvent(c, now)).value > now)
  }

  /** Cycles to the timer's next interrupt; every deadline is at least one cycle away. */
  function Wait<P, C>(d: DeviceModel<P, C>, p: P): nat {
    var u := d.untilIrq(p);
    if u.Some? && u.value > 1 then u.value else 1
  }

  // ---- interrupt controller ----

  /** Edge-latched interrupt controller: current source levels and latched requests. */
  datatype Irqc = Irqc(level: set<nat>, pending: set<nat>)

  /** `set_source_levels` for the sources of `mask`: rising edges latch a request. */
  function SetLevels(irq: Irqc, mask: set<nat>, levels: set<nat>): Irqc {
    var now := (irq.level - mask) + (levels * mask);
    Irqc(now, irq.pending + (now - irq.level))
  }

  // ---- bus state ----

  /** An expansion slot; `ran` records the cycles its events ran at. */
  datatype Slot<!C> = Empty | Card(state: C, ran: seq<nat>)

  /** `inputs` are the levels of the sources that the clock does not move: DMA, disk and host input. */
  datatype Bus<!P, !C> = Bus(clock: nat, timer: P, slots: seq<Slot<C>>, inputs: set<nat>, irq: Irqc)

  const TIMER_SOURCE: nat := 4
  const FIRST_SLOT_SOURCE: nat := 5

  function Levels<P, C>(d: DeviceModel<P, C>, b: Bus<P, C>): set<nat> {
    b.inputs + (if d.timerLevel(b.timer) then {TIMER_SOURCE} else {})
    + set i | 0 <= i < |b.slots| && b.slots[i].Card? && d.cardLevel(b.slots[i].state) :: FIRST_SLOT_SOURCE + i
  }

  function Refresh<P, C>(d: DeviceModel<P, C>, mask: set<nat>, b: Bus<P, C>): Bus<P, C> {
    b.(irq := SetLevels(b.irq, mask, Levels(d, b)))
  }

  predicate Due<P, C>(d: DeviceModel<P, C>, s: Slot<C>, now: nat) {
    s.Card? && d.deadline(s.state).Some? && d.deadline(s.state).value <= now
  }

  function RunSlot<P, C>(d: DeviceModel<P, C>, s: Slot<C>, now: nat): Slot<C> {
    if Due(d, s, now) then Card(d.runEvent(s.state, now), s.ran + [now]) else s
  }

  /** `run_due_expansion_events`. */
  function RunDue<P, C>(d: DeviceModel<P, C>, b: Bus<P, C>): Bus<P, C> {
    b.(slots := seq(|b.slots|, (i: nat) requires i < |b.slots| => RunSlot(d, b.slots[i], b.clock)))
  }

  predicate AnyDue<P, C>(d: DeviceModel<P, C>, b: Bus<P, C>) {
    exists i :: 0 <= i < |b.slots| && Due(d, b.slots[i], b.clock)
  }

  // ---- one cycle ----

  /** Time passes: timers move, nothing is delivered yet. */
  function Pass<P, C>(d: DeviceModel<P, C>, b: Bus<P, C>, n: nat): Bus<P, C> {
    b.(timer := d.advance(b.timer, n), clock := b.clock + n)
  }

  /** `n` cycles in one go, with events and levels delivered at the end. */
  function Jump<P, C>(d: DeviceModel<P, C>, mask: set<nat>, b: Bus<P, C>, n: nat): Bus<P, C> {
    Refresh(d, mask, RunDue(d, Pass(d, b, n)))
  }

  /** Events that are already due when a call begins. */
  function Begin<P, C>(d: DeviceModel<P, C>, mask: set<nat>, b: Bus<P, C>): Bus<P, C> {
    if AnyDue(d, b) then Refresh(d, mask, RunDue(d, b)) else b
  }

  /** `advance_system_cycles(1)`; the clock saturates. */
  function Tick<P, C>(d: DeviceModel<P, C>, mask: set<nat>, b: Bus<P, C>): Bus<P, C> {
    if b.clock >= MAX_CLOCK then Refresh(d, mask, RunDue(d, b)) else Jump(d, mask, Begin(d, mask, b), 1)
  }

  function Ticks<P, C>(d: DeviceModel<P, C>, mask: set<nat>, b: Bus<P, C>, n: nat): Bus<P, C> {
    Repeat(OneTick(d, mask), b, n)
  }

  function OneTick<P, C>(d: DeviceModel<P, C>, mask: set<nat>): Bus<P, C> -> Bus<P, C> {
    (b: Bus<P, C>) => Tick(d, mask, b)
  }

  lemma TicksStep<P, C>(d: DeviceModel<P, C>, mask: set<nat>, b: Bus<P, C>, n: nat)
    ensures Ticks(d, mask, b, n + 1) == Tick(d, mask, Ticks(d, mask, b, n))
  {
  }

  lemma NoTicks<P, C>(d: DeviceModel<P, C>, mask: set<nat>, b: Bus<P, C>)
    ensures Ticks(d, mask, b, 0) == b
  {
  }

  // ---- settled states ----

  /** Nothing is due and the controller has seen every level. */
  predicate Settled<P, C>(d: DeviceModel<P, C>, mask: set<nat>, b: Bus<P, C>) {
    !AnyDue(d, b) && Fresh(d, mask, b)
  }

  predicate Fresh<P, C>(d: DeviceModel<P, C>, mask: set<nat>, b: Bus<P, C>) {
    b.irq.level * mask == Levels(d, b) * mask
  }

  lemma FreshRefresh<P, C>(d: DeviceModel<P, C>, mask: set<nat>, b: Bus<P, C>)
    ensures Fresh(d, mask, Refresh(d, mask, b))
    ensures Fresh(d, mask, b) ==> Refresh(d, mask, b) == b
  {
    if Fresh(d, mask, b) {
      assert (b.irq.level - mask) + Levels(d, b) * mask == b.irq.level;
      assert b.irq.pending + (b.irq.level - b.irq.level) == b.irq.pending;
    }
  }

  lemma RunDueOnce<P(!new), C(!new)>(d: DeviceModel<P, C>, b: Bus<P, C>)
    requires Contract(d)
    ensures !AnyDue(d, RunDue(d, b))
    ensures !AnyDue(d, b) ==> RunDue(d, b) == b
  {
    forall i | 0 <= i < |b.slots| ensures !Due(d, RunDue(d, b).slots[i], b.clock) {
    }
    if !AnyDue(d, b) {
      assert RunDue(d, b).slots == b.slots;
    }
  }

  lemma RefreshKeepsSlots<P, C>(d: DeviceModel<P, C>, mask: set<nat>, b: Bus<P, C>)
    ensures AnyDue(d, Refresh(d, mask, b)) == AnyDue(d, b)
  {
  }

  lemma Deliver<P(!new), C(!new)>(d: DeviceModel<P, C>, mask: set<nat>, b: Bus<P, C>)
    requires Contract(d)
    ensures Settled(d, mask, Refresh(d, mask, RunDue(d, b)))
    ensures Settled(d, mask, b) ==> Refresh(d, mask, RunDue(d, b)) == b
  {
    hide Contract, RunDue, Refresh, Fresh, AnyDue;
    RunDueOnce(d, b);
    FreshRefresh(d, mask, RunDue(d, b));
    RefreshKeepsSlots(d, mask, RunDue(d, b));
  }

  /** From a settled state, up to the next deadline, time passes without any effect. */
  predicate Quiet<P, C>(d: DeviceModel<P, C>, b: Bus<P, C>, n: nat) {
    && b.clock + n <= MAX_CLOCK
    && (d.untilIrq(b.timer).Some? && n > 1 ==> n <= Wait(d, b.timer))
    && forall i :: 0 <= i < |b.slots| && b.slots[i].Card? && d.deadline(b.slots[i].state).Some? && n > 1 ==>
         b.clock + n <= d.deadline(b.slots[i].state).value
  }

  lemma PassNone<P(!new), C(!new)>(d: DeviceModel<P, C>, b: Bus<P, C>)
    requires Contract(d)
    ensures Pass(d, b, 0) == b
  {
  }

  lemma PassAdds<P(!new), C(!new)>(d: DeviceModel<P, C>, b: Bus<P, C>, m: nat, n: nat)
    requires Contract(d)
    ensures Pass(d, Pass(d, b, m), n) == Pass(d, b, m + n)
  {
    assert d.advance(d.advance(b.timer, m), n) == d.advance(b.timer, m + n);
  }

  /** As long as the timer's level holds, the clock moves no level. */
  lemma PassKeepsFresh<P(!new), C(!new)>(d: DeviceModel<P, C>, mask: set<nat>, b: Bus<P, C>, k: nat)
    requires Contract(d) && (d.untilIrq(b.timer).None? || k < Wait(d, b.timer))
    ensures Fresh(d, mask, Pass(d, b, k)) == Fresh(d, mask, b)
  {
    hide Contract, Levels;
    LevelHolds(d, b.timer, k);
    SameLevels(d, b, Pass(d, b, k));
  }

  lemma LevelHolds<P(!new), C(!new)>(d: DeviceModel<P, C>, p: P, n: nat)
    requires Contract(d) && (d.untilIrq(p).None? || n < Wait(d, p))
    ensures d.timerLevel(d.advance(p, n)) == d.timerLevel(p)
  {
  }

  lemma SameLevels<P, C>(d: DeviceModel<P, C>, b: Bus<P, C>, c: Bus<P, C>)
    requires c == b.(timer := c.timer, clock := c.clock) && d.timerLevel(c.timer) == d.timerLevel(b.timer)
    ensures Levels(d, c) == Levels(d, b)
  {
  }

  lemma NotYetDue<P, C>(d: DeviceModel<P, C>, b: Bus<P, C>, n: nat, k: nat)
    requires !AnyDue(d, b) && Quiet(d, b, n) && k < n
    ensures !AnyDue(d, Pass(d, b, k))
  {
    forall i | 0 <= i < |b.slots| ensures !Due(d, b.slots[i], b.clock + k) {
      assert !Due(d, b.slots[i], b.clock);
    }
  }

  lemma PassIsQuiet<P(!new), C(!new)>(d: DeviceModel<P, C>, mask: set<nat>, b: Bus<P, C>, n: nat, k: nat)
    requires Contract(d) && Settled(d, mask, b) && Quiet(d, b, n) && k < n
    ensures Settled(d, mask, Pass(d, b, k))
  {
    hide Contract, Fresh, AnyDue, Pass;
    NotYetDue(d, b, n, k);
    if k > 0 {
      PassKeepsFresh(d, mask, b, k);
    } else {
      PassNone(d, b);
    }
  }

  /** The middle of the argument: a jump to the next deadline is that many single cycles. */
  lemma {:induction false} JumpIsTicks<P(!new), C(!new)>(d: DeviceModel<P, C>, mask: set<nat>, b: Bus<P, C>, n: nat, k: nat)
    requires Contract(d) && Settled(d, mask, b) && Quiet(d, b, n) && k < n
    ensures Ticks(d, mask, b, k) == Pass(d, b, k)
    ensures Ticks(d, mask, b, k + 1) == Jump(d, mask, b, k + 1)
    decreases k
  {
    hide Contract, Settled, Ticks, Tick, Jump;
    if k == 0 {
      NoTicks(d, mask, b);
      PassNone(d, b);
    } else {
      JumpIsTicks(d, mask, b, n, k - 1);
      JumpStaysQuiet(d, mask, b, n, k);
    }
    TicksStep(d, mask, b, k);
    TickIsJump(d, mask, b, n, k);
  }

  lemma JumpStaysQuiet<P(!new), C(!new)>(d: DeviceModel<P, C>, mask: set<nat>, b: Bus<P, C>, n: nat, k: nat)
    requires Contract(d) && Settled(d, mask, b) && Quiet(d, b, n) && k < n
    ensures Jump(d, mask, b, k) == Pass(d, b, k)
  {
    hide Contract, Settled, Refresh, RunDue, Pass;
    PassIsQuiet(d, mask, b, n, k);
    Deliver(d, mask, Pass(d, b, k));
  }

  /** One more cycle in the quiet stretch. */
  lemma TickIsJump<P(!new), C(!new)>(d: DeviceModel<P, C>, mask: set<nat>, b: Bus<P, C>, n: nat, k: nat)
    requires Contract(d) && Settled(d, mask, b) && Quiet(d, b, n) && k < n
    ensures Tick(d, mask, Pass(d, b, k)) == Jump(d, mask, b, k + 1)
  {
    hide Contract, Fresh, AnyDue, Refresh, RunDue;
    PassIsQuiet(d, mask, b, n, k);
    PassAdds(d, b, k, 1);
  }

  lemma TicksAdd<P, C>(d: DeviceModel<P, C>, mask: set<nat>, b: Bus<P, C>, m: nat, n: nat)
    ensures Ticks(d, mask, Ticks(d, mask, b, m), n) == Ticks(d, mask, b, m + n)
  {
    RepeatAdd(OneTick(d, mask), b, m, n);
  }

  /** What begins a call is the same for one cycle and for many. */
  lemma BeginTicks<P(!new), C(!new)>(d: DeviceModel<P, C>, mask: set<nat>, b: Bus<P, C>, n: nat)
    requires Contract(d) && n > 0 && b.clock < MAX_CLOCK && (AnyDue(d, b) || Fresh(d, mask, b))
    ensures Settled(d, mask, Begin(d, mask, b)) && Ticks(d, mask, Begin(d, mask, b), n) == Ticks(d, mask, b, n)
    decreases n
  {
    hide Contract, Ticks, Fresh, RunSlot, SetLevels, Levels;
    Deliver(d, mask, b);
    var c := Begin(d, mask, b);
    NoTicks(d, mask, b);
    NoTicks(d, mask, c);
    TicksStep(d, mask, b, n - 1);
    TicksStep(d, mask, c, n - 1);
    if n > 1 {
      BeginTicks(d, mask, b, n - 1);
    }
  }

  /** With the clock at its limit, further cycles change nothing. */
  lemma {:induction false} StoppedClock<P(!new), C(!new)>(d: DeviceModel<P, C>, mask: set<nat>, b: Bus<P, C>, n: nat)
    requires Contract(d) && b.clock >= MAX_CLOCK
    ensures n > 0 ==> Ticks(d, mask, b, n) == Refresh(d, mask, RunDue(d, b))
  {
    hide Contract, Settled, Ticks, RunSlot, SetLevels, Levels;
    if n == 0 {
    } else {
      StoppedClock(d, mask, b, n - 1);
      NoTicks(d, mask, b);
      TicksStep(d, mask, b, n - 1);
      Deliver(d, mask, b);
      Deliver(d, mask, Refresh(d, mask, RunDue(d, b)));
    }
  }

  /** One round of the loop: a jump to the next stop is that many cycles, and ends settled. */
  lemma RoundIsTicks<P(!new), C(!new)>(d: DeviceModel<P, C>, mask: set<nat>, s: Bus<P, C>, v: Bus<P, C>, m: nat, n: nat)
    requires Contract(d) && Settled(d, mask, v) && Quiet(d, v, n) && n > 0 && v == Ticks(d, mask, s, m)
    ensures Settled(d, mask, Jump(d, mask, v, n)) && Jump(d, mask, v, n) == Ticks(d, mask, s, m + n)
  {
    hide Contract, Settled, Ticks, Refresh, RunDue, Pass;
    JumpIsTicks(d, mask, v, n, n - 1);
    TicksAdd(d, mask, s, m, n);
    Deliver(d, mask, Pass(d, v, n));
  }

  // ---- stale levels ----

  /** A timer that counts its cycles and drops its interrupt at the second one. */
  function DroppingTimer(): DeviceModel<int, ()> {
    DeviceModel(
      (p: int, n: nat) => p + n,
      (p: int) => if p < 2 then Some(2 - p) else None,
      (p: int) => p < 2,
      (c: ()) => None,
      (c: (), now: nat) => c,
      (c: ()) => false)
  }

  /** On a bus whose controller has not seen the timer's level, one jump of two cycles loses the
      request that two single cycles latch. */
  lemma StaleLevelsDiffer()
    ensures var d, m, b := DroppingTimer(), {TIMER_SOURCE}, Bus(0, 0, [], {}, Irqc({}, {}));
            && Contract(d) && !AnyDue(d, b) && !Fresh(d, m, b) && Quiet(d, b, 2)
            && Jump(d, m, b, 2).irq.pending == {} && Ticks(d, m, b, 2).irq.pending == {TIMER_SOURCE}
  {
    hide Contract, Fresh, Jump, Ticks, Tick, DroppingTimer;
    var d, m, b := DroppingTimer(), {TIMER_SOURCE}, Bus(0, 0, [], {}, Irqc({}, {}));
    DroppingTimerKeepsContract(d);
    StaleAtStart(d, m, b);
    TimerAlone(d, m, b, 2);
    TwoTicks(d, m, b);
  }

  lemma DroppingTimerKeepsContract(d: DeviceModel<int, ()>)
    requires d == DroppingTimer()
    ensures Contract(d)
  {
  }

  lemma StaleAtStart(d: DeviceModel<int, ()>, m: set<nat>, b: Bus<int, ()>)
    requires d == DroppingTimer() && m == {TIMER_SOURCE} && b == Bus(0, 0, [], {}, Irqc({}, {}))
    ensures !Fresh(d, m, b) && Quiet(d, b, 2)
  {
    assert TIMER_SOURCE in Levels(d, b) * m;
  }

  lemma TwoTicks(d: DeviceModel<int, ()>, m: set<nat>, b: Bus<int, ()>)
    requires d == DroppingTimer() && m == {TIMER_SOURCE} && b == Bus(0, 0, [], {}, Irqc({}, {}))
    ensures Ticks(d, m, b, 2).irq.pending == {TIMER_SOURCE}
  {
    hide Ticks, Jump, DroppingTimer;
    NoTicks(d, m, b);
    TicksStep(d, m, b, 0);
    TicksStep(d, m, b, 1);
    TimerAlone(d, m, b, 1);
    TimerAlone(d, m, Tick(d, m, b), 1);
  }

  /** Without slots, a jump moves the timer's level only. */
  lemma TimerAlone(d: DeviceModel<int, ()>, mask: set<nat>, b: Bus<int, ()>, n: nat)
    requires d == DroppingTimer() && mask == {TIMER_SOURCE} && b.slots == [] && b.inputs == {} && b.irq.level <= mask
    ensures var now := if b.timer + n < 2 then {TIMER_SOURCE} else {};
            Jump(d, mask, b, n) == Bus(b.clock + n, b.timer + n, [], {}, Irqc(now, b.irq.pending + (now - b.irq.level)))
    ensures !AnyDue(d, b)
  {
    var v := RunDue(d, Pass(d, b, n));
    var now := if b.timer + n < 2 then {TIMER_SOURCE} else {};
    assert v == Pass(d, b, n);
    assert Levels(d, v) == now;
    assert (b.irq.level - mask) + now * mask == now;
  }
}
