/**
 Quiet windows of the system bus: for how many cycles ticking every device is known to change
 nothing but clocks, and passing that many cycles at once.
 */
module BusQuiet {
  import opened Wrappers
  import opened Simulation
  import opened BusClock
  import BusRelaxed

  /** The disk controller (state `D`): `without` is how many ticks move only its clock (`None`
      without bound), `idle` moves the clock, and `status` is what the rest of the machine sees. */
  datatype DiskModel<!D, !S> = DiskModel(without: D -> Option<nat>, idle: (D, nat) -> D, status: D -> S)

  ghost predicate DiskContract<D(!new), S(!new)>(k: DiskModel<D, S>) {
    && (forall e: D :: k.idle(e, 0) == e)
    && (forall e: D, m: nat, n: nat :: k.idle(k.idle(e, m), n) == k.idle(e, m + n))
    && (forall e: D, n: nat :: Lasts(k.without(e), n) ==>
          k.status(k.idle(e, n)) == k.status(e) && ShorterBy(k.without(e), k.without(k.idle(e, n)), n))
  }

  /** A span of at least `n`; `None` has no end. */
  predicate Lasts(span: Option<nat>, n: nat) {
    span.None? || n <= span.value
  }

  /** A span is now shorter by no more than `n`. */
  predicate ShorterBy(before: Option<nat>, now: Option<nat>, n: nat) {
    now.None? || (before.Some? && before.value <= now.value + n)
  }

  /** The timer's announced interrupt comes no sooner than announced. */
  ghost predicate CountsDown<P(!new), C(!new)>(d: DeviceModel<P, C>) {
    forall p: P, n: nat :: Lasts(BeforeIrq(d, p), n) ==> ShorterBy(BeforeIrq(d, p), BeforeIrq(d, d.advance(p, n)), n)
  }

  /** Cycles before the tick that raises the timer's interrupt. */
  function BeforeIrq<P, C>(d: DeviceModel<P, C>, p: P): Option<nat> {
    match d.untilIrq(p)
    case None => None
    case Some(n) => Some(if n == 0 then 0 else n - 1)
  }

  /** The bus with its disk and the DMA channels that request it. */
  datatype Devices<!P, !C, !D> = Devices(bus: Bus<P, C>, disk: D, requests: set<nat>)

  /** `act` is the rest of a device tick when the disk or DMA may act. */
  datatype Setup<!P, !C, !D, !S> = Setup(
    d: DeviceModel<P, C>, mask: set<nat>, k: DiskModel<D, S>, act: Devices<P, C, D> -> Devices<P, C, D>)

  /** What the bus and its devices promise. */
  ghost predicate Trusted<P(!new), C(!new), D(!new), S(!new)>(u: Setup<P, C, D, S>) {
    Contract(u.d) && CountsDown(u.d) && DiskContract(u.k)
  }

  /** `tick_devices`. */
  function TickDevices<P, C, D, S>(u: Setup<P, C, D, S>, m: Devices<P, C, D>): Devices<P, C, D> {
    var b := m.(bus := Tick(u.d, u.mask, m.bus));
    if Lasts(u.k.without(b.disk), 1) && b.requests == {} then b.(disk := u.k.idle(b.disk, 1)) else u.act(b)
  }

  function OneTick<P, C, D, S>(u: Setup<P, C, D, S>): Devices<P, C, D> -> Devices<P, C, D> {
    (m: Devices<P, C, D>) => TickDevices(u, m)
  }

  /** `quiet_cycles` without deferred cycles. */
  function Window<P, C, D, S>(u: Setup<P, C, D, S>, m: Devices<P, C, D>): nat {
    if !BusRelaxed.NoCards(m.bus) || m.requests != {} then 0
    else Shorter(u.k.without(m.disk), Shorter(BeforeIrq(u.d, m.bus.timer), MAX_CLOCK))
  }

  function Shorter(span: Option<nat>, n: nat): nat {
    if span.Some? && span.value < n then span.value else n
  }

  /** `quiet_cycles`: deferred cycles are owed to the devices already. */
  function QuietCycles<P, C, D, S>(u: Setup<P, C, D, S>, m: Devices<P, C, D>, owed: nat): nat {
    var quiet := Window(u, m);
    if quiet > owed then quiet - owed else 0
  }

  /** Idle devices: `n` cycles of the disk's clock, and `advance_system_cycles(n)` for the bus, which is
      `n` ticks of it. */
  function IdleBy<P, C, D, S>(u: Setup<P, C, D, S>, m: Devices<P, C, D>, n: nat): Devices<P, C, D> {
    m.(bus := Ticks(u.d, u.mask, m.bus, n), disk := u.k.idle(m.disk, n))
  }

  /** `advance_quiet_cycles`: the owed cycles first. */
  function AdvanceQuiet<P, C, D, S>(u: Setup<P, C, D, S>, m: Devices<P, C, D>, owed: nat, n: nat): Devices<P, C, D> {
    IdleBy(u, IdleBy(u, m, owed), n)
  }

  /** A bus without cards is up to date whenever the CPU may look at it. */
  predicate Sound<P, C, D, S>(u: Setup<P, C, D, S>, m: Devices<P, C, D>) {
    BusRelaxed.NoCards(m.bus) ==> m.bus.clock <= MAX_CLOCK && Fresh(u.d, u.mask, m.bus)
  }

  /** What reads without side effects, and the interrupt output, can see. */
  datatype View<!C, !S> = View(irq: Irqc, inputs: set<nat>, slots: seq<Slot<C>>, requests: set<nat>, disk: S)

  function ViewOf<P, C, D, S>(u: Setup<P, C, D, S>, m: Devices<P, C, D>): View<C, S> {
    View(m.bus.irq, m.bus.inputs, m.bus.slots, m.requests, u.k.status(m.disk))
  }

  lemma IdleAdds<P(!new), C(!new), D(!new), S(!new)>(u: Setup<P, C, D, S>, m: Devices<P, C, D>, i: nat, j: nat)
    requires Trusted(u)
    ensures IdleBy(u, IdleBy(u, m, i), j) == IdleBy(u, m, i + j)
  {
    TicksAdd(u.d, u.mask, m.bus, i, j);
  }

  lemma IdleByNone<P(!new), C(!new), D(!new), S(!new)>(u: Setup<P, C, D, S>, m: Devices<P, C, D>)
    requires Trusted(u)
    ensures IdleBy(u, m, 0) == m
  {
    NoTicks(u.d, u.mask, m.bus);
  }

  /** The bus's part of a quiet window. */
  lemma IdleBus<P(!new), C(!new)>(d: DeviceModel<P, C>, mask: set<nat>, b: Bus<P, C>, n: nat)
    requires Contract(d) && CountsDown(d) && BusRelaxed.NoCards(b) && Fresh(d, mask, b) && b.clock <= MAX_CLOCK
    requires 0 < n && Lasts(BeforeIrq(d, b.timer), n)
    ensures var c := Ticks(d, mask, b, n);
            && c == b.(timer := c.timer, clock := c.clock) && Fresh(d, mask, c) && c.clock <= MAX_CLOCK
            && ShorterBy(BeforeIrq(d, b.timer), BeforeIrq(d, c.timer), n)
  {
    hide Contract, Fresh, Ticks;
    BusRelaxed.IdleTicks(d, mask, b, n);
    var k := if b.clock + n <= MAX_CLOCK then n else MAX_CLOCK - b.clock;
    assert Ticks(d, mask, b, n) == Pass(d, b, k);
    assert ShorterBy(BeforeIrq(d, b.timer), BeforeIrq(d, d.advance(b.timer, k)), k);
  }

  lemma ClocksAreUnseen<P, C, D, S>(u: Setup<P, C, D, S>, m: Devices<P, C, D>, v: Devices<P, C, D>, n: nat)
    requires v == m.(bus := v.bus, disk := v.disk) && v.bus == m.bus.(timer := v.bus.timer, clock := v.bus.clock)
    requires u.k.status(v.disk) == u.k.status(m.disk) && ShorterBy(u.k.without(m.disk), u.k.without(v.disk), n)
    requires ShorterBy(BeforeIrq(u.d, m.bus.timer), BeforeIrq(u.d, v.bus.timer), n)
    ensures ViewOf(u, v) == ViewOf(u, m) && Window(u, v) >= Window(u, m) - n
  {
  }

  /** In the window, idle devices look as they did, and the rest of the window is still quiet. */
  lemma IdleIsUnseen<P(!new), C(!new), D(!new), S(!new)>(u: Setup<P, C, D, S>, m: Devices<P, C, D>, n: nat)
    requires Trusted(u) && Sound(u, m) && n <= Window(u, m)
    ensures var v := IdleBy(u, m, n);
            Sound(u, v) && ViewOf(u, v) == ViewOf(u, m) && Window(u, v) >= Window(u, m) - n
  {
    if n == 0 {
      IdleByNone(u, m);
    } else {
      IdleBus(u.d, u.mask, m.bus, n);
      ClocksAreUnseen(u, m, IdleBy(u, m, n), n);
    }
  }

  /** Main result: passing quiet cycles at once is that many ticks of every device. */
  lemma {:induction false} IdleIsTicks<P(!new), C(!new), D(!new), S(!new)>(u: Setup<P, C, D, S>, m: Devices<P, C, D>, n: nat)
    requires Trusted(u) && Sound(u, m) && n <= Window(u, m)
    ensures Repeat(OneTick(u), m, n) == IdleBy(u, m, n)
  {
    hide Trusted, Sound, Window, IdleBy, TickDevices;
    if n == 0 {
      IdleByNone(u, m);
    } else {
      IdleIsTicks(u, m, n - 1);
      NextQuietTick(u, m, n - 1, IdleBy(u, m, n - 1));
    }
  }

  lemma NextQuietTick<P(!new), C(!new), D(!new), S(!new)>(u: Setup<P, C, D, S>, m: Devices<P, C, D>, n: nat, v: Devices<P, C, D>)
    requires Trusted(u) && Sound(u, m) && n + 1 <= Window(u, m) && v == IdleBy(u, m, n)
    ensures TickDevices(u, v) == IdleBy(u, m, n + 1)
  {
    IdleIsUnseen(u, m, n);
    OneQuietTick(u, v);
    IdleAdds(u, m, n, 1);
  }

  lemma OneQuietTick<P(!new), C(!new), D(!new), S(!new)>(u: Setup<P, C, D, S>, m: Devices<P, C, D>)
    requires Trusted(u) && Window(u, m) >= 1
    ensures TickDevices(u, m) == IdleBy(u, m, 1)
  {
    NoTicks(u.d, u.mask, m.bus);
    TicksStep(u.d, u.mask, m.bus, 0);
  }

  lemma WindowIsTicks<P(!new), C(!new), D(!new), S(!new)>(u: Setup<P, C, D, S>, m: Devices<P, C, D>, n: nat, v: Devices<P, C, D>)
    requires Trusted(u) && Sound(u, m) && n <= Window(u, m) && v == IdleBy(u, m, n)
    ensures v == Repeat(OneTick(u), m, n) && ViewOf(u, v) == ViewOf(u, m)
    ensures Sound(u, v) && QuietCycles(u, v, 0) >= Window(u, m) - n
  {
    IdleIsTicks(u, m, n);
    IdleIsUnseen(u, m, n);
  }

  /** `advance_quiet_cycles` of a bus that owes its devices no more than the window: the devices are
      those of ticking every cycle, owed or new, reads and the interrupt output see no difference,
      and what is left of the window stays quiet. */
  lemma QuietIsTicks<P(!new), C(!new), D(!new), S(!new)>(u: Setup<P, C, D, S>, m: Devices<P, C, D>, owed: nat, n: nat)
    requires Trusted(u) && Sound(u, m) && owed <= Window(u, m) && n <= QuietCycles(u, m, owed)
    ensures var v := AdvanceQuiet(u, m, owed, n);
            && v == Repeat(OneTick(u), m, owed + n) && ViewOf(u, v) == ViewOf(u, m)
            && Sound(u, v) && QuietCycles(u, v, 0) >= QuietCycles(u, m, owed) - n
  {
    hide Trusted, Sound, Window, IdleBy, ViewOf;
    IdleAdds(u, m, owed, n);
    WindowIsTicks(u, m, owed + n, AdvanceQuiet(u, m, owed, n));
  }
}
