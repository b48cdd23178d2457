/** The translation unit in place: its slots are a fixed array, and a check fills them as it goes. */
module TlbUnit {
  import opened Isa
  import opened Wrappers
  import opened Tlb

  class TranslationUnit {
    var enabled: bool
    var ptbr: Word
    var vfault: Word
    const tlb: array<Entry>
    var next: nat

    ghost predicate Valid()
      reads this
    {
      tlb.Length == ENTRIES && next < ENTRIES
    }

    ghost function Value(): Vm
      reads this, tlb
    {
      Vm(enabled, ptbr, vfault, tlb[..], next)
    }

    constructor ()
      ensures Valid() && fresh(tlb) && Value() == Flush(Vm(false, 0, 0, [], 0))
    {
      enabled, ptbr, vfault, next := false, 0, 0, 0;
      tlb := new Entry[ENTRIES](_ => NoEntry());
    }

    /** `flush`. */
    method FlushAll()
      requires Valid()
      modifies this`next, tlb
      ensures Valid() && Value() == Flush(old(Value()))
    {
      forall i | 0 <= i < tlb.Length {
        tlb[i] := NoEntry();
      }
      next := 0;
      assert tlb[..] == seq(ENTRIES, _ => NoEntry());
    }

    /** `invalidate`. */
    method InvalidatePage(va: Word)
      requires Valid()
      modifies tlb
      ensures Valid() && Value() == Invalidate(old(Value()), va)
    {
      var i := 0;
      while i < tlb.Length
        invariant i <= tlb.Length
        invariant forall k :: 0 <= k < i ==>
                    tlb[k] == if old(tlb[k]).vpn == PageOf(va) then old(tlb[k]).(valid := false) else old(tlb[k])
        invariant forall k :: i <= k < tlb.Length ==> tlb[k] == old(tlb[k])
      {
        if tlb[i].vpn == PageOf(va) {
          tlb[i] := tlb[i].(valid := false);
        }
        i := i + 1;
      }
      assert tlb[..] == Invalidate(old(Value()), va).tlb;
    }

    /** `lookup`: the first valid entry for the page. */
    method Find(vpn: Vpn) returns (e: Option<Entry>)
      requires Valid()
      ensures e == Lookup(Value(), vpn)
    {
      var i := 0;
      while i < tlb.Length
        invariant i <= tlb.Length && FindFrom(tlb[..], vpn, 0) == FindFrom(tlb[..], vpn, i)
      {
        if tlb[i].valid && tlb[i].vpn == vpn {
          return Some(tlb[i]);
        }
        i := i + 1;
      }
      return None;
    }

    /** `fill`: round robin. */
    method FillSlot(e: Entry)
      requires Valid()
      modifies this`next, tlb
      ensures Valid() && Value() == Fill(old(Value()), e)
    {
      tlb[next] := e;
      next := (next + 1) % ENTRIES;
    }

    /** One page of a check. */
    method CheckOnePage(mem: Memory, addr: Word, p: Vpn, access: Access) returns (fault: Option<Exception>)
      requires Valid()
      modifies this`next, tlb
      ensures Valid() && (Value(), fault) == CheckPage(old(Value()), mem, addr, p, access)
    {
      var at := FaultAddress(addr, p);
      if Base(p) >= RESERVED {
        return Some(PageFault(access, true, at));
      }
      var hit := Find(p);
      var entry;
      if hit.Some? {
        entry := hit.value;
      } else {
        match Walk(ptbr, p, mem) {
          case BusFault => return Some(BusError);
          case Missing => return Some(PageFault(access, false, at));
          case Found(e) =>
            FillSlot(e);
            entry := e;
        }
      }
      if Denied(entry, access) {
        return Some(PageFault(access, true, at));
      }
      return None;
    }

    /** `check_access` with translation on: page after page. The loop ends for every address and length,
        also next to the end of the address space, where pages of the reserved range fault. */
    method CheckAccess(mem: Memory, addr: Word, len: nat, access: Access) returns (fault: Option<Exception>)
      requires Valid() && len > 0
      modifies this`next, tlb
      ensures Valid() && (Value(), fault) == CheckPages(old(Value()), mem, addr, Plus(addr, len - 1), PageOf(addr), access)
    {
      hide CheckPages, CheckPage, Walk;
      var last := Plus(addr, len - 1);
      var p := PageOf(addr);
      ghost var whole := CheckPages(Value(), mem, addr, last, p, access);
      while true
        invariant Valid() && p < PAGES && whole == CheckPages(Value(), mem, addr, last, p, access)
        decreases PAGES - p
      {
        NextPage(Value(), mem, addr, last, p, access);
        fault := CheckOnePage(mem, addr, p, access);
        if fault.Some? || p == PageOf(last) {
          return;
        }
        p := p + 1;
      }
    }
  }
}
