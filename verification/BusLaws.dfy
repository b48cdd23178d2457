/**
 The bus source by source and card by card: what one cycle does, and how far time may be deferred or skipped.
 Interrupt source 4 is the timer, source 5 + i the card in slot i.
 */
module BusLaws {
  import opened Wrappers
  import opened BusClock
  import BusRelaxed
  import BusQuiet
  import SpinSkip
  import SpinLoop

  // ---- one cycle ----

  /** The request line of source `k` is high. */
  predicate Line<P, C>(d: DeviceModel<P, C>, b: Bus<P, C>, k: nat) {
    || k in b.inputs
    || (k == 4 && d.timerLevel(b.timer))
    || (5 <= k < 5 + |b.slots| && b.slots[k - 5].Card? && d.cardLevel(b.slots[k - 5].state))
  }

  /** The controller after it has looked at the lines of the sources that the bus drives: a line that has gone
      high since the last look is pending, and stays so; other sources are left alone. */
  ghost predicate Latched<P, C>(d: DeviceModel<P, C>, mask: set<nat>, b: Bus<P, C>, was: Irqc, now: Irqc) {
    && (forall k: nat :: k in now.level <==> if k in mask then Line(d, b, k) else k in was.level)
    && (forall k: nat :: k in now.pending <==> k in was.pending || (k in mask && Line(d, b, k) && k !in was.level))
  }

  lemma RefreshLatches<P, C>(d: DeviceModel<P, C>, mask: set<nat>, b: Bus<P, C>)
    ensures Refresh(d, mask, b) == b.(irq := Refresh(d, mask, b).irq) && Latched(d, mask, b, b.irq, Refresh(d, mask, b).irq)
  {
    LevelsAreLines(d, b);
  }

  lemma LevelsAreLines<P, C>(d: DeviceModel<P, C>, b: Bus<P, C>)
    ensures forall k: nat :: k in Levels(d, b) <==> Line(d, b, k)
  {
  }

  /** A card in this slot runs its event at cycle `now` if its deadline has come, once, and is told the cycle. */
  ghost predicate Ran<P, C>(d: DeviceModel<P, C>, before: Slot<C>, after: Slot<C>, now: nat) {
    if before.Card? && d.deadline(before.state).Some? && d.deadline(before.state).value <= now
    then after == Card(d.runEvent(before.state, now), before.ran + [now]) else after == before
  }

  /** One cycle of a bus on which nothing is due: the clock and the timer advance by one, every card whose
      deadline is the new cycle runs, and then the controller looks at the lines. */
  lemma CycleIs<P, C>(d: DeviceModel<P, C>, mask: set<nat>, b: Bus<P, C>)
    requires b.clock < 0xFFFF_FFFF_FFFF_FFFF
    requires forall i :: 0 <= i < |b.slots| && b.slots[i].Card? && d.deadline(b.slots[i].state).Some? ==>
               d.deadline(b.slots[i].state).value > b.clock
    ensures var v := Tick(d, mask, b);
            && v.clock == b.clock + 1 && v.timer == d.advance(b.timer, 1) && v.inputs == b.inputs && |v.slots| == |b.slots|
            && (forall i :: 0 <= i < |b.slots| ==> Ran(d, b.slots[i], v.slots[i], b.clock + 1))
            && Latched(d, mask, v, b.irq, v.irq)
  {
    assert !AnyDue(d, b);
    var c := RunDue(d, Pass(d, b, 1));
    RefreshLatches(d, mask, c);
    SameLines(d, c, Refresh(d, mask, c));
  }

  lemma SameLines<P, C>(d: DeviceModel<P, C>, b: Bus<P, C>, c: Bus<P, C>)
    requires c == b.(irq := c.irq)
    ensures forall k: nat :: Line(d, b, k) == Line(d, c, k)
  {
  }

  // ---- how far ----

  /** The longest stretch that may be deferred ends when the timer raises its interrupt, and after 256 cycles. */
  lemma LimitIs<P, C>(d: DeviceModel<P, C>, b: Bus<P, C>, n: nat)
    requires n >= 1
    ensures n <= BusRelaxed.Limit(d, b) <==> n <= 256 && (n == 1 || d.untilIrq(b.timer).None? || n <= d.untilIrq(b.timer).value)
  {
  }

  /** The budget is all that may be deferred: after exactly that much the next tick catches the devices up, and
      after less it does not. */
  lemma BudgetIsAll<P, C>(u: BusRelaxed.Setup<P, C>, r: BusRelaxed.Relaxed<P, C>, k: nat)
    requires (r.deferred == 0 ==> !r.m.busy) && (r.deferred > 0 ==> r.deferred < r.limit) && k <= BusRelaxed.Budget(u, r)
    ensures BusRelaxed.RelaxedTick(u, BusRelaxed.Defer(u, r, k)).deferred == 0 <==> k == BusRelaxed.Budget(u, r)
  {
  }

  /** The window in which nothing can be seen of idle cycles: none with a card or a request about, up to the
      disk's next change of state, and to the cycle before the timer's interrupt. */
  lemma WindowIs<P, C, D, S>(u: BusQuiet.Setup<P, C, D, S>, m: BusQuiet.Devices<P, C, D>, owed: nat, n: nat)
    requires n > 0
    ensures n <= BusQuiet.QuietCycles(u, m, owed) <==>
              && m.requests == {} && (forall i :: 0 <= i < |m.bus.slots| ==> m.bus.slots[i].Empty?)
              && owed + n <= 0xFFFF_FFFF_FFFF_FFFF
              && (u.k.without(m.disk).None? || owed + n <= u.k.without(m.disk).value)
              && (u.d.untilIrq(m.bus.timer).None? || owed + n < u.d.untilIrq(m.bus.timer).value)
  {
  }

  /** The next event is the first of the timer's interrupt and the cards' deadlines; one that is past is now. */
  lemma {:induction false} EarliestIs<P, K>(d: DeviceModel<P, K>, slots: seq<Slot<K>>, now: nat, n: nat)
    ensures var e := SpinLoop.Earliest(d, slots, now);
            (e.None? || n < e.value) <==>
              forall i :: 0 <= i < |slots| && slots[i].Card? && d.deadline(slots[i].state).Some? ==>
                now + n < d.deadline(slots[i].state).value
  {
    if slots == [] {
    } else {
      EarliestIs(d, slots[1..], now, n);
      forall i | 0 <= i < |slots| - 1 ensures slots[i + 1] == slots[1..][i] {
      }
    }
  }

  lemma UntilEventIs<P, K>(d: DeviceModel<P, K>, b: Bus<P, K>, n: nat)
    ensures var e := SpinLoop.UntilEvent(d, b);
            (e.None? || n < e.value) <==>
              && (d.untilIrq(b.timer).None? || n < d.untilIrq(b.timer).value)
              && forall i :: 0 <= i < |b.slots| && b.slots[i].Card? && d.deadline(b.slots[i].state).Some? ==>
                   b.clock + n < d.deadline(b.slots[i].state).value
  {
    EarliestIs(d, b.slots, b.clock, n);
  }

  /** The run loop is told all of the quiet window. */
  lemma QuietIsAll<P, K, D, S>(u: BusQuiet.Setup<P, K, D, S>, m: BusQuiet.Devices<P, K, D>, n: nat)
    requires n > 0 && BusQuiet.Sound(u, m)
    ensures n <= SpinLoop.QuietOf(u, m) <==>
              && m.requests == {} && (forall i :: 0 <= i < |m.bus.slots| ==> m.bus.slots[i].Empty?)
              && n <= 0xFFFF_FFFF_FFFF_FFFF
              && (u.k.without(m.disk).None? || n <= u.k.without(m.disk).value)
              && (u.d.untilIrq(m.bus.timer).None? || n < u.d.untilIrq(m.bus.timer).value)
  {
    WindowIs(u, m, 0, n);
  }

  /** A halted CPU with nothing pending jumps to the first event or to the end of its run, and not past either. */
  lemma HaltedJumps<C, R, P, K, D, S>(x: SpinLoop.Loop<C, R, P, K, D, S>, w: SpinSkip.World<C, R, BusQuiet.Devices<P, K, D>>, end: nat, n: nat)
    requires x.cpu.halted(w.core) && !x.pending(w.devices) && w.cycles < end
    ensures w.cycles + n < SpinLoop.Jump(x, w, end).cycles <==>
              && w.cycles + n < end
              && (x.u.d.untilIrq(w.devices.bus.timer).None? || n < x.u.d.untilIrq(w.devices.bus.timer).value)
              && forall i :: 0 <= i < |w.devices.bus.slots| && w.devices.bus.slots[i].Card?
                             && x.u.d.deadline(w.devices.bus.slots[i].state).Some? ==>
                   w.devices.bus.clock + n < x.u.d.deadline(w.devices.bus.slots[i].state).value
  {
    UntilEventIs(x.u.d, w.devices.bus, n);
  }
}
