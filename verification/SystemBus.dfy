/** The bus object: device time in large steps, against one cycle at a time. */
module SystemBus {
  import opened Wrappers
  import opened BusClock
  import opened BusRelaxed

  class Bus<!P(!new), !C(!new)> {
    const d: DeviceModel<P, C>
    /** Interrupt sources the bus drives. */
    const mask: set<nat>
    var clock: nat
    var timer: P
    var slots: seq<Slot<C>>
    var inputs: set<nat>
    var irq: Irqc
    /** Disk clock, whether DMA, the disk or a card needs every cycle, and deferred device time. */
    var disk: nat
    var busy: bool
    var relaxedCycles: nat
    var relaxedLimit: nat

    ghost function Value(): BusClock.Bus<P, C>
      reads this
    {
      BusClock.Bus(clock, timer, slots, inputs, irq)
    }

    ghost function Relaxed(): BusRelaxed.Relaxed<P, C>
      reads this
    {
      BusRelaxed.Relaxed(Machine(Value(), disk, busy), relaxedCycles, relaxedLimit)
    }

    constructor (d: DeviceModel<P, C>, mask: set<nat>, b: BusClock.Bus<P, C>, busy: bool)
      ensures this.d == d && this.mask == mask && Value() == b
      ensures Relaxed() == BusRelaxed.Relaxed(Machine(b, 0, busy), 0, 0)
    {
      this.d := d;
      this.mask := mask;
      disk, relaxedCycles, relaxedLimit := 0, 0, 0;
      this.busy := busy;
      clock, timer, slots, inputs, irq := b.clock, b.timer, b.slots, b.inputs, b.irq;
    }

    /** `refresh_device_irqs`. */
    method RefreshDeviceIrqs()
      modifies this`irq
      ensures Value() == Refresh(d, mask, old(Value()))
    {
      var levels := Levels(d, BusClock.Bus(clock, timer, slots, inputs, irq));
      irq := SetLevels(irq, mask, levels);
    }

    /** `run_due_expansion_events`: slot by slot. */
    method RunDueExpansionEvents() returns (ran: bool)
      modifies this`slots
      ensures Value() == RunDue(d, old(Value())) && ran == AnyDue(d, old(Value()))
    {
      ghost var before := slots;
      ran := false;
      var i := 0;
      while i < |slots|
        invariant 0 <= i <= |slots| == |before|
        invariant forall k :: 0 <= k < i ==> slots[k] == RunSlot(d, before[k], clock)
        invariant forall k :: i <= k < |slots| ==> slots[k] == before[k]
        invariant ran == exists k :: 0 <= k < i && Due(d, before[k], clock)
      {
        if Due(d, slots[i], clock) {
          slots := slots[i := Card(d.runEvent(slots[i].state, clock), slots[i].ran + [clock])];
          ran := true;
        }
        i := i + 1;
      }
    }

    /** `next_expansion_event_cycle`: the earliest deadline of any card. */
    method NextExpansionEventCycle() returns (next: Option<nat>)
      ensures next.None? ==> forall i :: 0 <= i < |slots| && slots[i].Card? ==> d.deadline(slots[i].state).None?
      ensures next.Some? ==>
                && (exists i :: 0 <= i < |slots| && slots[i].Card? && d.deadline(slots[i].state) == next)
                && (forall i :: 0 <= i < |slots| && slots[i].Card? && d.deadline(slots[i].state).Some? ==>
                      next.value <= d.deadline(slots[i].state).value)
    {
      next := None;
      for i := 0 to |slots|
        invariant next.None? ==> forall k :: 0 <= k < i && slots[k].Card? ==> d.deadline(slots[k].state).None?
        invariant next.Some? ==>
                    && (exists k :: 0 <= k < i && slots[k].Card? && d.deadline(slots[k].state) == next)
                    && (forall k :: 0 <= k < i && slots[k].Card? && d.deadline(slots[k].state).Some? ==>
                          next.value <= d.deadline(slots[k].state).value)
      {
        if slots[i].Card? {
          var deadline := d.deadline(slots[i].state);
          if deadline.Some? && (next.None? || deadline.value < next.value) {
            next := deadline;
          }
        }
      }
    }

    /** The next cycle at which anything may happen, but no later than `target`. */
    method NextStop(target: nat) returns (next: nat)
      requires clock < target <= MAX_CLOCK
      ensures clock < next <= target
      ensures !AnyDue(d, Value()) ==> Quiet(d, Value(), next - clock)
    {
      next := target;
      if target - clock > 1 {
        var until := d.untilIrq(timer);
        if until.Some? {
          var at := clock + if until.value > 1 then until.value else 1;
          next := if at < next then at else next;
        }
        var deadline := NextExpansionEventCycle();
        if deadline.Some? && deadline.value > clock && deadline.value < next {
          next := deadline.value;
        }
        if !AnyDue(d, BusClock.Bus(clock, timer, slots, inputs, irq)) {
          NotDue(d, Value());
        }
      }
    }

    /** Events already due, and levels if there were any or no cycle will pass. */
    method BeginAdvance(pass: bool)
      modifies this`slots, this`irq
      ensures Value() == if !pass || AnyDue(d, old(Value())) then Refresh(d, mask, RunDue(d, old(Value()))) else RunDue(d, old(Value()))
    {
      var eventAtStart := RunDueExpansionEvents();
      if !pass || eventAtStart {
        RefreshDeviceIrqs();
      }
    }

    /** One round: `elapsed` cycles, then the events and levels of the cycle reached. */
    method AdvanceRound(elapsed: nat)
      modifies this`clock, this`timer, this`slots, this`irq
      ensures Value() == Jump(d, mask, old(Value()), elapsed)
    {
      timer := d.advance(timer, elapsed);
      clock := clock + elapsed;
      var _ := RunDueExpansionEvents();
      RefreshDeviceIrqs();
    }

    /** The loop's body: on to the next possible event. */
    method AdvanceToNextStop(target: nat, ghost s: BusClock.Bus<P, C>, ghost passed: nat)
      requires Contract(d) && clock < target <= MAX_CLOCK
      requires Settled(d, mask, s) ==> Settled(d, mask, Value()) && Value() == Ticks(d, mask, s, passed)
      modifies this`clock, this`timer, this`slots, this`irq
      ensures old(clock) < clock <= target && Settled(d, mask, Value())
      ensures Settled(d, mask, s) ==> Value() == Ticks(d, mask, s, passed + (clock - old(clock)))
    {
      hide Contract, AnyDue, Fresh, Ticks, Quiet, RunSlot, SetLevels, Levels;
      var next := NextStop(target);
      var elapsed := next - clock;
      if Settled(d, mask, s) {
        RoundIsTicks(d, mask, s, Value(), passed, elapsed);
      }
      Deliver(d, mask, Pass(d, Value(), elapsed));
      AdvanceRound(elapsed);
    }

    /** The loop: from one possible event to the next; each round moves the clock. */
    method AdvanceTo(target: nat)
      requires Contract(d) && clock <= target <= MAX_CLOCK
      modifies this`clock, this`timer, this`slots, this`irq
      ensures clock == target
      ensures if target == old(clock) then Value() == old(Value()) else Settled(d, mask, Value())
      ensures Settled(d, mask, old(Value())) ==>
                Settled(d, mask, Value()) && Value() == Ticks(d, mask, old(Value()), target - old(clock))
    {
      hide Contract, Settled, Ticks;
      ghost var s := Value();
      NoTicks(d, mask, s);
      while clock < target
        invariant old(clock) <= clock <= target
        invariant if clock == old(clock) then Value() == s else Settled(d, mask, Value())
        invariant Settled(d, mask, s) ==> Settled(d, mask, Value()) && Value() == Ticks(d, mask, s, clock - old(clock))
        decreases target - clock
      {
        AdvanceToNextStop(target, s, clock - old(clock));
      }
    }

    /** `advance_system_cycles`: for one cycle or more it is exactly that many calls with one cycle,
        whatever the clock, the timers and the cards do, if an event is due or the levels are up to date
        when it begins. When it ends they are. */
    method AdvanceSystemCycles(cycles: nat)
      requires Contract(d) && clock <= MAX_CLOCK
      modifies this`clock, this`timer, this`slots, this`irq
      ensures clock == if old(clock) + cycles <= MAX_CLOCK then old(clock) + cycles else MAX_CLOCK
      ensures cycles > 0 && (AnyDue(d, old(Value())) || Fresh(d, mask, old(Value()))) ==>
                Value() == Ticks(d, mask, old(Value()), cycles)
      ensures cycles == 0 ==> Value() == Refresh(d, mask, RunDue(d, old(Value())))
      ensures Settled(d, mask, Value())
    {
      hide Contract, Settled, Ticks, Refresh, RunDue, AnyDue, Fresh;
      var target := if clock + cycles <= MAX_CLOCK then clock + cycles else MAX_CLOCK;
      ghost var b := Value();
      BeginAdvance(target > clock);
      ghost var s := Value();
      BeginCall(d, mask, b, s, target);
      Deliver(d, mask, b);
      AdvanceTo(target);
      if cycles > 0 && (AnyDue(d, b) || Fresh(d, mask, b)) {
        EndCall(d, mask, b, s, Value(), target - b.clock, cycles);
      }
    }

    /** `native_idle_budget`. */
    method NativeIdleBudget(ghost u: Setup<P, C>) returns (budget: nat)
      requires u.d == d && u.mask == mask
      ensures budget == Budget(u, Relaxed())
    {
      if relaxedCycles != 0 {
        return if relaxedLimit > relaxedCycles + 1 then relaxedLimit - (relaxedCycles + 1) else 0;
      }
      if busy {
        return 0;
      }
      return Limit(d, BusClock.Bus(clock, timer, slots, inputs, irq)) - 1;
    }

    /** `defer_native_idle_cycles`. */
    method DeferNativeIdleCycles(ghost u: Setup<P, C>, cycles: nat)
      requires u.d == d && u.mask == mask
      modifies this`relaxedCycles, this`relaxedLimit
      ensures Relaxed() == Defer(u, old(Relaxed()), cycles)
    {
      if relaxedCycles == 0 {
        relaxedLimit := Limit(d, BusClock.Bus(clock, timer, slots, inputs, irq));
      }
      relaxedCycles := relaxedCycles + cycles;
    }

    /** `flush_relaxed_devices`: the time owed, in one large step. */
    method FlushRelaxedDevices(ghost u: Setup<P, C>)
      requires u.d == d && u.mask == mask && Trusted(u) && Sound(u, Relaxed().m) && clock <= MAX_CLOCK
      requires relaxedCycles != 0 ==> !busy
      modifies this`clock, this`timer, this`slots, this`irq, this`disk, this`relaxedCycles
      ensures Relaxed() == Flush(u, old(Relaxed()))
    {
      var cycles := relaxedCycles;
      relaxedCycles := 0;
      if cycles != 0 {
        disk := disk + cycles;
        AdvanceSystemCycles(cycles);
      }
    }

    /** `tick_relaxed_devices`. */
    method TickRelaxedDevices(u: Setup<P, C>)
      requires u.d == d && u.mask == mask && Trusted(u) && Sound(u, Relaxed().m) && clock <= MAX_CLOCK
      requires relaxedCycles != 0 ==> !busy
      modifies this
      ensures Relaxed() == RelaxedTick(u, old(Relaxed()))
    {
      hide Trusted, Sound, Flush, Limit, Contract;
      if relaxedCycles == 0 {
        if busy {
          var m := u.busyTick(Machine(BusClock.Bus(clock, timer, slots, inputs, irq), disk, busy));
          clock, timer, slots, inputs, irq := m.bus.clock, m.bus.timer, m.bus.slots, m.bus.inputs, m.bus.irq;
          disk, busy := m.disk, m.busy;
          return;
        }
        relaxedLimit := Limit(d, BusClock.Bus(clock, timer, slots, inputs, irq));
      }
      relaxedCycles := relaxedCycles + 1;
      if relaxedCycles >= relaxedLimit {
        FlushRelaxedDevices(u);
      }
    }
  }

  lemma NotDue<P, C>(d: DeviceModel<P, C>, v: BusClock.Bus<P, C>)
    requires !AnyDue(d, v)
    ensures forall i :: 0 <= i < |v.slots| && v.slots[i].Card? && d.deadline(v.slots[i].state).Some? ==>
              d.deadline(v.slots[i].state).value > v.clock
  {
    forall i | 0 <= i < |v.slots| && v.slots[i].Card? && d.deadline(v.slots[i].state).Some?
      ensures d.deadline(v.slots[i].state).value > v.clock
    {
      assert !Due(d, v.slots[i], v.clock);
    }
  }

  lemma BeginCall<P(!new), C(!new)>(d: DeviceModel<P, C>, mask: set<nat>, b: BusClock.Bus<P, C>, s: BusClock.Bus<P, C>,
                                    target: nat)
    requires Contract(d) && b.clock <= target
    requires s == (if target == b.clock || AnyDue(d, b) then Refresh(d, mask, RunDue(d, b)) else RunDue(d, b))
    ensures s.clock == b.clock
    ensures target > b.clock ==> s == Begin(d, mask, b)
    ensures AnyDue(d, b) || Fresh(d, mask, b) ==> Settled(d, mask, s) && s == Ticks(d, mask, s, 0)
  {
    Deliver(d, mask, b);
    RunDueOnce(d, b);
  }

  lemma EndCall<P(!new), C(!new)>(d: DeviceModel<P, C>, mask: set<nat>, b: BusClock.Bus<P, C>, s: BusClock.Bus<P, C>,
                                  e: BusClock.Bus<P, C>, n: nat, cycles: nat)
    requires Contract(d) && cycles > 0 && b.clock == s.clock && e.clock == s.clock + n
    requires e.clock == if b.clock + cycles <= MAX_CLOCK then b.clock + cycles else MAX_CLOCK
    requires AnyDue(d, b) || Fresh(d, mask, b)
    requires s == if n == 0 then Refresh(d, mask, RunDue(d, b)) else Begin(d, mask, b)
    requires Settled(d, mask, e) && e == Ticks(d, mask, s, n)
    ensures e == Ticks(d, mask, b, cycles)
  {
    if n == 0 {
      StoppedClock(d, mask, b, cycles);
      NoTicks(d, mask, s);
    } else {
      BeginTicks(d, mask, b, n);
      RestIsStill(d, mask, b, e, n, cycles);
    }
  }

  /** Cycles past the end of the clock add nothing. */
  lemma RestIsStill<P(!new), C(!new)>(d: DeviceModel<P, C>, mask: set<nat>, b: BusClock.Bus<P, C>, e: BusClock.Bus<P, C>,
                                      n: nat, cycles: nat)
    requires Contract(d) && n <= cycles && (n < cycles ==> e.clock >= MAX_CLOCK)
    requires Settled(d, mask, e) && e == Ticks(d, mask, b, n)
    ensures e == Ticks(d, mask, b, cycles)
  {
    if n < cycles {
      StillAtEnd(d, mask, e, cycles - n);
      SameTicks(d, mask, b, e, n, cycles);
    }
  }

  lemma SameTicks<P, C>(d: DeviceModel<P, C>, mask: set<nat>, b: BusClock.Bus<P, C>, e: BusClock.Bus<P, C>, n: nat, cycles: nat)
    requires n <= cycles && e == Ticks(d, mask, b, n) && Ticks(d, mask, e, cycles - n) == e
    ensures e == Ticks(d, mask, b, cycles)
  {
    hide Ticks;
    TicksAdd(d, mask, b, n, cycles - n);
  }

  lemma StillAtEnd<P(!new), C(!new)>(d: DeviceModel<P, C>, mask: set<nat>, e: BusClock.Bus<P, C>, n: nat)
    requires Contract(d) && Settled(d, mask, e) && e.clock >= MAX_CLOCK
    ensures Ticks(d, mask, e, n) == e
  {
    StoppedClock(d, mask, e, n);
    Deliver(d, mask, e);
    NoTicks(d, mask, e);
  }
}
