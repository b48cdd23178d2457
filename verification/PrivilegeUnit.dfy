/** Trap entry and return on the CPU's own register array, and what the cores may assume of them. */
module PrivilegeUnit {
  import opened Isa
  import opened Wrappers
  import opened Tlb
  import opened Privilege

  class SystemUnit {
    const reg: array<Word>
    const other: array<Word>
    var ie: bool
    var pie: bool
    var user: bool
    var pu: bool
    var psm: Mode
    var epc: Word
    var cause: Word
    var regions: Regions
    var vm: Vm

    ghost predicate Valid()
      reads this
    {
      reg.Length == 32 && other.Length == BANK_SIZE && reg != other && Shaped(vm)
    }

    ghost function Value(): System
      requires Valid()
      reads this, other
    {
      System(ie, pie, user, pu, psm, epc, cause, other[..], regions, vm)
    }

    ghost function Registers(): Regs
      requires Valid()
      reads this, reg
    {
      reg[..]
    }

    /** After reset: supervisor mode with interrupts enabled, no region, translation off. */
    constructor ()
      ensures Valid() && fresh(reg) && fresh(other)
      ensures !user && ie && pie && !pu && psm == Normal && !vm.enabled
    {
      reg := new Word[32](_ => 0);
      other := new Word[BANK_SIZE](_ => 0);
      ie, pie, user, pu, psm, epc, cause := true, true, false, false, Normal, 0, 0;
      regions := seq(REGIONS, _ => Region(0, 0, false, false, false));
      vm := Flush(Vm(false, 0, 0, [], 0));
    }

    /** `swap_bank`: element by element. */
    method SwapBanks()
      requires Valid()
      modifies reg, other
      ensures (Value(), Registers()) == SwapBank(old(Value()), old(Registers()))
    {
      var i := 0;
      while i < BANK_SIZE
        invariant i <= BANK_SIZE
        invariant forall k :: 0 <= k < i ==> other[k] == old(reg[28 + k])
        invariant forall k :: i <= k < BANK_SIZE ==> other[k] == old(other[k])
        invariant forall k :: 28 <= k < 28 + i ==> reg[k] == old(other[k - 28])
        invariant forall k :: 0 <= k < 28 || 28 + i <= k < 32 ==> reg[k] == old(reg[k])
      {
        reg[28 + i], other[i] := other[i], reg[28 + i];
        i := i + 1;
      }
      BanksSwapped(old(Registers()), old(other[..]), reg[..], other[..]);
    }

    /** `enter_trap`. */
    method EnterTrapNow(pc: Word, code: Word, mode: Mode)
      requires Valid()
      modifies this`epc, this`cause, this`pie, this`ie, this`pu, this`psm, this`user, reg, other
      ensures Valid() && (Value(), Registers()) == EnterTrap(old(Value()), old(Registers()), pc, code, mode)
    {
      epc := pc;
      cause := code;
      pie := ie;
      ie := false;
      pu := user;
      psm := mode;
      if user {
        SwapBanks();
        user := false;
      }
    }

    /** `leave_trap`. */
    method LeaveTrapNow() returns (pc: Word, mode: Mode)
      requires Valid()
      modifies this`ie, this`user, reg, other
      ensures Valid() && (Value(), Registers(), pc, mode) == LeaveTrap(old(Value()), old(Registers()))
    {
      ie := pie;
      if pu && !user {
        SwapBanks();
        user := true;
      }
      return epc, psm;
    }
  }

  lemma BanksSwapped(reg: Regs, other: Bank, q: seq<Word>, o: seq<Word>)
    requires |q| == 32 && |o| == BANK_SIZE
    requires forall k :: 0 <= k < BANK_SIZE ==> o[k] == reg[28 + k]
    requires forall k :: 0 <= k < 32 ==> q[k] == if 28 <= k < 31 then other[k - 28] else reg[k]
    ensures o == LiveBank(reg) && q == WithBank(reg, other)
  {
  }

  /** A page fault leaves its address behind before the trap. */
  function Noted(s: System, e: Exception): System {
    if e.PageFault? then s.(vm := s.vm.(vfault := e.addr)) else s
  }

  /** The privilege unit as a platform sees it. `tables` is the memory that table walks read. */
  ghost predicate IsSystem<M(!new)>(env: Platform<M, System>, tables: Memory, causeOf: Exception -> Word) {
    && (forall s: System :: env.user(s) == s.user)
    && (forall s: System, r: Regs, e: Exception, pc: Word, m: Mode ::
          env.trap(s, r, e, pc, m) == EnterTrap(Noted(s, e), r, pc, causeOf(e), m))
    && (forall s: System, r: Regs :: env.iret(s, r) == LeaveTrap(s, r))
    && (forall s: System, r: Regs, n: Half :: env.readSr(s, r, n) == ReadSr(s, r, n))
    && (forall s: System, r: Regs, n: Half, v: Word ::
          env.writeSr(s, r, n, v) == if Shaped(s.vm) then WriteSr(s, r, n, v) else None)
    && (forall s: System, a: Word, n: nat, access: Access :: env.check(s, a, n, access) == CheckAnswer(tables, s, a, n, access))
  }

  lemma {:induction false} FetchFaults(ptbr: Word, tables: Memory, addr: Word, last: Word, p: Vpn)
    requires forall a: Word :: tables(a).Some?
    ensures FreshCheck(ptbr, tables, addr, last, p, Fetch).Some? ==>
              IsFetchFault(FreshCheck(ptbr, tables, addr, last, p, Fetch).value)
    decreases PAGES - p
  {
    if FreshPage(ptbr, tables, addr, p, Fetch).Some? || p == PageOf(last) {
    } else {
      FetchFaults(ptbr, tables, addr, last, p + 1);
    }
  }

  /** With page tables in readable memory, the privilege unit meets every promise that the pipeline
      and the block compiler rely on. */
  lemma SystemIsWired<M(!new)>(env: Platform<M, System>, tables: Memory, causeOf: Exception -> Word)
    requires IsSystem(env, tables, causeOf) && forall a: Word :: tables(a).Some?
    ensures Wired(env)
  {
    forall s: System, a: Word, n: nat | env.check(s, a, n, Fetch).Some?
      ensures IsFetchFault(env.check(s, a, n, Fetch).value)
    {
      if s.user && s.vm.enabled && n > 0 {
        FetchFaults(s.vm.ptbr, tables, a, Plus(a, n - 1), PageOf(a));
      }
    }
    forall s: System, r: Regs, n: Half, v: Word | env.writeSr(s, r, n, v).Some?
      ensures env.writeSr(s, r, n, v).value.1[0] == r[0]
    {
      WriteKeepsZero(s, r, n, v);
    }
  }

  lemma WriteKeepsZero(s: System, r: Regs, n: Half, v: Word)
    requires Shaped(s.vm) && WriteSr(s, r, n, v).Some?
    ensures WriteSr(s, r, n, v).value.1[0] == r[0]
  {
  }
}
