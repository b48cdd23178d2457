/**
 One bank of the tag-only L1 cache model: what it holds after any history of accesses,
 invalidations and control writes.
 */
module L1Tags {
  import opened Isa

  const LINE: nat := 32
  const SLOTS: nat := 256
  const BANK_BYTES: nat := 8192
  /** No address has this tag. */
  const INVALID: Word := 0xFFFF_FFFF

  datatype Bank = Bank(tags: seq<Word>, enabled: bool, hits: Word, misses: Word)

  predicate Shaped(b: Bank) {
    |b.tags| == SLOTS
  }

  function Index(pa: Word): (i: nat)
    ensures i < SLOTS
  {
    pa / LINE % SLOTS
  }

  function Tag(pa: Word): (t: Word)
    ensures t != INVALID
  {
    pa / BANK_BYTES
  }

  /** Slot and tag identify a line. */
  lemma SameLine(pa: Word, qa: Word)
    ensures Index(pa) == Index(qa) && Tag(pa) == Tag(qa) <==> pa / LINE == qa / LINE
  {
    assert pa / BANK_BYTES == pa / LINE / SLOTS && qa / BANK_BYTES == qa / LINE / SLOTS;
  }

  function NewBank(): (b: Bank)
    ensures Shaped(b)
  {
    Bank(seq(SLOTS, _ => INVALID), true, 0, 0)
  }

  predicate Hits(b: Bank, pa: Word)
    requires Shaped(b)
  {
    b.tags[Index(pa)] == Tag(pa)
  }

  function AccessLine(b: Bank, pa: Word): (c: Bank)
    requires Shaped(b)
    ensures Shaped(c)
  {
    if Hits(b, pa) then b.(hits := Plus(b.hits, 1))
    else b.(tags := b.tags[Index(pa) := Tag(pa)], misses := Plus(b.misses, 1))
  }

  function InvalidateAll(b: Bank): (c: Bank)
    ensures Shaped(c)
  {
    b.(tags := seq(SLOTS, _ => INVALID))
  }

  function InvalidateLine(b: Bank, pa: Word): (c: Bank)
    requires Shaped(b)
    ensures Shaped(c)
  {
    if Hits(b, pa) then b.(tags := b.tags[Index(pa) := INVALID]) else b
  }

  function InvalidateIndex(b: Bank, i: nat): (c: Bank)
    requires Shaped(b) && i < SLOTS
    ensures Shaped(c)
  {
    b.(tags := b.tags[i := INVALID])
  }

  function SetEnabled(b: Bank, on: bool): (c: Bank)
    requires Shaped(b)
    ensures Shaped(c)
  {
    (if b.enabled != on then InvalidateAll(b) else b).(enabled := on)
  }

  // ---- histories ----

  datatype Event = AccessEvent(pa: Word) | LineEvent(pa: Word) | IndexEvent(i: nat) | AllEvent | EnableEvent(on: bool)

  predicate ValidEvent(e: Event) {
    e.IndexEvent? ==> e.i < SLOTS
  }

  function Step(b: Bank, e: Event): (c: Bank)
    requires Shaped(b) && ValidEvent(e)
    ensures Shaped(c)
  {
    match e
    case AccessEvent(pa) => AccessLine(b, pa)
    case LineEvent(pa) => InvalidateLine(b, pa)
    case IndexEvent(i) => InvalidateIndex(b, i)
    case AllEvent => InvalidateAll(b)
    case EnableEvent(on) => SetEnabled(b, on)
  }

  predicate ValidEvents(es: seq<Event>) {
    forall k :: 0 <= k < |es| ==> ValidEvent(es[k])
  }

  function Run(b: Bank, es: seq<Event>): (c: Bank)
    requires Shaped(b) && ValidEvents(es)
    ensures Shaped(c)
    decreases |es|
  {
    if es == [] then b else Step(Run(b, es[..|es| - 1]), es[|es| - 1])
  }

  /** The enable bit after a history: the last one written, on at first. */
  function EnabledAfter(es: seq<Event>): bool {
    if es == [] then true
    else if es[|es| - 1].EnableEvent? then es[|es| - 1].on
    else EnabledAfter(es[..|es| - 1])
  }

  /** Event `k` of the history clears the line of `pa`: another line takes its slot, or the line, its
      slot or the whole bank is invalidated, or the enable bit changes. */
  predicate Clears(es: seq<Event>, k: nat, pa: Word)
    requires k < |es|
  {
    match es[k]
    case AccessEvent(qa) => Index(qa) == Index(pa) && Tag(qa) != Tag(pa)
    case LineEvent(qa) => qa / LINE == pa / LINE
    case IndexEvent(i) => i == Index(pa)
    case AllEvent => true
    case EnableEvent(on) => on != EnabledAfter(es[..k])
  }

  /** Event `j` accessed the line of `pa`, and nothing cleared it since. */
  predicate LiveSince(es: seq<Event>, j: nat, pa: Word)
    requires j < |es|
  {
    es[j].AccessEvent? && es[j].pa / LINE == pa / LINE && forall k :: j < k < |es| ==> !Clears(es, k, pa)
  }

  lemma {:induction false} EnableIsLast(es: seq<Event>)
    requires ValidEvents(es)
    ensures Run(NewBank(), es).enabled == EnabledAfter(es)
    decreases |es|
  {
    if es == [] {
    } else {
      EnableIsLast(es[..|es| - 1]);
    }
  }

  /** Main result: after any history, a lookup hits exactly if the line was accessed and not cleared
      since. */
  lemma {:induction false} HitsIffLive(es: seq<Event>, pa: Word)
    requires ValidEvents(es)
    ensures Hits(Run(NewBank(), es), pa) <==> exists j :: 0 <= j < |es| && LiveSince(es, j, pa)
    decreases |es|
  {
    if es != [] {
      var n := |es| - 1;
      var init, e := es[..n], es[n];
      HitsIffLive(init, pa);
      EnableIsLast(init);
      LineOfEvent(e, pa);
      if Clears(es, n, pa) {
        assert forall j :: 0 <= j < n ==> !LiveSince(es, j, pa);
      } else if LiveSince(es, n, pa) {
        assert Hits(Run(NewBank(), es), pa);
      } else {
        forall j | 0 <= j < n ensures LiveSince(es, j, pa) == LiveSince(init, j, pa) {
          EarlierEvents(es, n, pa);
        }
      }
    }
  }

  lemma LineOfEvent(e: Event, pa: Word)
    ensures e.AccessEvent? || e.LineEvent? ==>
              (e.pa / LINE == pa / LINE <==> Index(e.pa) == Index(pa) && Tag(e.pa) == Tag(pa))
  {
    if e.AccessEvent? || e.LineEvent? {
      SameLine(e.pa, pa);
    }
  }

  lemma EarlierEvents(es: seq<Event>, n: nat, pa: Word)
    requires n < |es|
    ensures forall k :: 0 <= k < n ==> Clears(es[..n], k, pa) == Clears(es, k, pa)
  {
    forall k | 0 <= k < n ensures Clears(es[..n], k, pa) == Clears(es, k, pa) {
      assert es[..n][..k] == es[..k];
    }
  }

  // ---- geometry and counters ----

  /** Lines of 32 bytes in 256 slots: two addresses are in one line exactly if they agree but for the low five
      bits, and compete for a slot exactly if their lines are a multiple of 256 lines apart. */
  lemma Geometry(pa: Word, qa: Word)
    ensures Index(pa) == Index(qa) && Tag(pa) == Tag(qa) <==> pa / 32 == qa / 32
    ensures Index(pa) == Index(qa) <==> (pa / 32 - qa / 32) % 256 == 0
  {
    SameLine(pa, qa);
  }

  /** The accesses of a history, and those that hit. */
  function Accesses(es: seq<Event>): nat {
    if es == [] then 0 else Accesses(es[..|es| - 1]) + if es[|es| - 1].AccessEvent? then 1 else 0
  }

  ghost predicate LiveLine(es: seq<Event>, pa: Word) {
    exists j :: 0 <= j < |es| && LiveSince(es, j, pa)
  }

  ghost function Live(es: seq<Event>): nat {
    if es == [] then 0
    else
      var n := |es| - 1;
      Live(es[..n]) + if es[n].AccessEvent? && LiveLine(es[..n], es[n].pa) then 1 else 0
  }

  /** The counters count, modulo 2^32, the accesses to lines that were live, and all others. */
  lemma {:induction false} CountersCount(es: seq<Event>)
    requires ValidEvents(es)
    ensures var b := Run(NewBank(), es);
            b.hits == Live(es) % 0x1_0000_0000 && Live(es) <= Accesses(es) && b.misses == (Accesses(es) - Live(es)) % 0x1_0000_0000
    decreases |es|
  {
    if es == [] {
    } else {
      var n := |es| - 1;
      CountersCount(es[..n]);
      hide LiveLine, Hits, Run, Accesses, Live;
      LastCounts(es, n);
      if es[n].AccessEvent? {
        HitsAreLive(es[..n], es[n].pa);
        CountUp(Live(es[..n]));
        CountUp(Accesses(es[..n]) - Live(es[..n]));
      }
    }
  }

  lemma HitsAreLive(es: seq<Event>, pa: Word)
    requires ValidEvents(es)
    ensures Hits(Run(NewBank(), es), pa) <==> LiveLine(es, pa)
  {
    HitsIffLive(es, pa);
  }

  lemma CountUp(n: nat)
    ensures Plus(n % 0x1_0000_0000, 1) == (n + 1) % 0x1_0000_0000
  {
  }

  /** What the last event of a history counts. */
  lemma LastCounts(es: seq<Event>, n: nat)
    requires ValidEvents(es) && n + 1 == |es|
    ensures var b, c, e := Run(NewBank(), es[..n]), Run(NewBank(), es), es[n];
            && (!e.AccessEvent? ==> c.hits == b.hits && c.misses == b.misses)
            && (e.AccessEvent? && Hits(b, e.pa) ==> c.hits == Plus(b.hits, 1) && c.misses == b.misses)
            && (e.AccessEvent? && !Hits(b, e.pa) ==> c.hits == b.hits && c.misses == Plus(b.misses, 1))
    ensures Accesses(es) == Accesses(es[..n]) + if es[n].AccessEvent? then 1 else 0
    ensures Live(es) == Live(es[..n]) + if es[n].AccessEvent? && LiveLine(es[..n], es[n].pa) then 1 else 0
  {
    hide LiveLine, Hits;
  }
}
