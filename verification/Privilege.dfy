/**
 Extension P: trap entry and return, the banked registers R28 to R30, system registers and the
 protection regions of user code.
 */
module Privilege {
  import opened Isa
  import opened Wrappers
  import opened Tlb

  const BANK_SIZE: nat := 3
  const REGIONS: nat := 8

  type Bank = b: seq<Word> | |b| == 3 witness [0, 0, 0]

  /** `end` is exclusive. */
  datatype Region = Region(start: Word, end: Word, r: bool, w: bool, x: bool)

  type Regions = rs: seq<Region> | |rs| == 8 witness seq(8, _ => Region(0, 0, false, false, false))

  /** Trap and privilege state; `other` holds R28 to R30 of the mode that is not current. */
  datatype System = System(
    ie: bool, pie: bool, user: bool, pu: bool, psm: Mode, epc: Word, cause: Word, other: Bank, regions: Regions, vm: Vm)

  function LiveBank(reg: Regs): Bank {
    reg[28..31]
  }

  function WithBank(reg: Regs, b: Bank): Regs {
    reg[28 := b[0]][29 := b[1]][30 := b[2]]
  }

  /** `swap_bank` as part of a mode change. */
  function SwapBank(s: System, reg: Regs): (System, Regs) {
    (s.(other := LiveBank(reg)), WithBank(reg, s.other))
  }

  /** `enter_trap`. */
  function EnterTrap(s: System, reg: Regs, epc: Word, cause: Word, mode: Mode): (System, Regs) {
    var t := s.(epc := epc, cause := cause, pie := s.ie, ie := false, pu := s.user, psm := mode);
    if s.user then
      var (u, q) := SwapBank(t, reg);
      (u.(user := false), q)
    else (t, reg)
  }

  /** `leave_trap`: the new state and registers, and where to resume. */
  function LeaveTrap(s: System, reg: Regs): (System, Regs, Word, Mode) {
    var t := s.(ie := s.pie);
    if s.pu && !s.user then
      var (u, q) := SwapBank(t, reg);
      (u.(user := true), q, s.epc, s.psm)
    else (t, reg, s.epc, s.psm)
  }

  // ---- system registers ----

  datatype Sr =
    | Status | Epc | Cause | UserBank(k: nat) | Vctl | Ptbr | Vfault | TlbFlush | TlbInv
    | RegionField(n: nat, field: nat)

  /** The system register of a number, if there is one. */
  function SrOf(n: Half): (sr: Option<Sr>)
    ensures sr.Some? ==> ValidSr(sr.value)
  {
    match n
    case 0 => Some(Status)
    case 1 => Some(Epc)
    case 2 => Some(Cause)
    case 8 => Some(UserBank(0))
    case 9 => Some(UserBank(1))
    case 10 => Some(UserBank(2))
    case 0x40 => Some(Vctl)
    case 0x41 => Some(Ptbr)
    case 0x42 => Some(Vfault)
    case 0x43 => Some(TlbFlush)
    case 0x44 => Some(TlbInv)
    case _ =>
      if n < 0x10 then None
      else
        var offset := n - 0x10;
        if offset / 4 < REGIONS && offset % 4 < 3 then Some(RegionField(offset / 4, offset % 4)) else None
  }

  function Flag(b: bool, weight: nat): nat {
    if b then weight else 0
  }

  function StatusWord(s: System): Word {
    Flag(s.ie, 1) + Flag(s.pie, 2) + Flag(s.user, 4) + Flag(s.pu, 8) + Flag(s.psm == Short, 16)
  }

  /** A write of STATUS; the user bit is read-only. */
  function SetStatus(s: System, v: Word): System {
    s.(ie := Bit(v, 0), pie := Bit(v, 1), pu := Bit(v, 3), psm := if Bit(v, 4) then Short else Normal)
  }

  function RegionFlags(r: Region): Word {
    Flag(r.r, 1) + Flag(r.w, 2) + Flag(r.x, 4)
  }

  /** `read_sr`. */
  function ReadSr(s: System, reg: Regs, n: Half): Option<Word> {
    var sr := SrOf(n);
    if sr.None? then None else Some(ReadKnown(s, reg, sr.value))
  }

  function ReadKnown(s: System, reg: Regs, sr: Sr): Word
    requires ValidSr(sr)
  {
    match sr
    case Status => StatusWord(s)
    case Epc => s.epc
    case Cause => s.cause
    case UserBank(k) => if s.user then reg[28 + k] else s.other[k]
    case Vctl => Flag(s.vm.enabled, 1)
    case Ptbr => s.vm.ptbr
    case Vfault => s.vm.vfault
    case TlbFlush => 0
    case TlbInv => 0
    case RegionField(k, field) =>
      if field == 0 then s.regions[k].start else if field == 1 then s.regions[k].end else RegionFlags(s.regions[k])
  }

  function SetRegion(r: Region, field: nat, v: Word): Region {
    if field == 0 then r.(start := v)
    else if field == 1 then r.(end := v)
    else r.(r := Bit(v, 0), w := Bit(v, 1), x := Bit(v, 2))
  }

  predicate OfTranslation(sr: Sr) {
    sr.Vctl? || sr.Ptbr? || sr.Vfault? || sr.TlbFlush? || sr.TlbInv?
  }

  /** Writes of the translation unit's registers. */
  function WriteVm(vm: Vm, sr: Sr, v: Word): (w: Vm)
    requires Shaped(vm) && OfTranslation(sr)
    ensures Shaped(w)
  {
    match sr
    case Vctl => vm.(enabled := Bit(v, 0))
    case Ptbr => Flush(vm.(ptbr := v - v % PAGE))
    case Vfault => vm.(vfault := v)
    case TlbFlush => Flush(vm)
    case TlbInv => Invalidate(vm, v)
  }

  predicate ValidSr(sr: Sr) {
    (sr.UserBank? ==> sr.k < BANK_SIZE) && (sr.RegionField? ==> sr.n < REGIONS && sr.field < 3)
  }

  function WriteKnown(s: System, reg: Regs, sr: Sr, v: Word): (r: (System, Regs))
    requires Shaped(s.vm) && ValidSr(sr)
    ensures Shaped(r.0.vm)
  {
    match sr
    case Status => (SetStatus(s, v), reg)
    case Epc => (s.(epc := v), reg)
    case Cause => (s.(cause := v), reg)
    case UserBank(k) => if s.user then (s, reg[28 + k := v]) else (s.(other := s.other[k := v]), reg)
    case RegionField(k, field) => (s.(regions := s.regions[k := SetRegion(s.regions[k], field, v)]), reg)
    case other => (s.(vm := WriteVm(s.vm, other, v)), reg)
  }

  /** `write_sr`. */
  function WriteSr(s: System, reg: Regs, n: Half, v: Word): Option<(System, Regs)>
    requires Shaped(s.vm)
  {
    var sr := SrOf(n);
    if sr.None? then None else Some(WriteKnown(s, reg, sr.value, v))
  }

  // ---- two banks ----

  /** The machine as the manual describes it: each mode has its own R28 to R30. */
  datatype TwoBanks = TwoBanks(
    supervisor: Bank, user: Bank, shared: seq<Word>, inUser: bool,
    ie: bool, pie: bool, pu: bool, psm: Mode, epc: Word, cause: Word, regions: Regions, vm: Vm)

  function Shared(reg: Regs): seq<Word> {
    reg[..28] + reg[31..]
  }

  function Abstract(s: System, reg: Regs): TwoBanks {
    TwoBanks(if s.user then s.other else LiveBank(reg), if s.user then LiveBank(reg) else s.other, Shared(reg), s.user,
             s.ie, s.pie, s.pu, s.psm, s.epc, s.cause, s.regions, s.vm)
  }

  /** Register writes by instructions, traps, returns, and MTSR. */
  datatype Op =
    | RegOp(r: Reg, v: Word)
    | TrapOp(epc: Word, cause: Word, mode: Mode)
    | IretOp
    | SrOp(n: Half, v: Word)

  function Step(s: System, reg: Regs, op: Op): (r: (System, Regs))
    requires Shaped(s.vm)
    ensures Shaped(r.0.vm)
  {
    match op
    case RegOp(r, v) => (s, SetReg(reg, r, v))
    case TrapOp(epc, cause, mode) => EnterTrap(s, reg, epc, cause, mode)
    case IretOp => var r := LeaveTrap(s, reg); (r.0, r.1)
    case SrOp(n, v) => var r := WriteSr(s, reg, n, v); if r.Some? then r.value else (s, reg)
  }

  /** The same on two banks: no bank ever moves. */
  function TwoBankStep(a: TwoBanks, op: Op): (b: TwoBanks)
    requires Shaped(a.vm) && |a.shared| == 29
    ensures Shaped(b.vm) && |b.shared| == 29
  {
    match op
    case RegOp(r, v) =>
      if r == 0 then a
      else if r < 28 then a.(shared := a.shared[r := v])
      else if r == 31 then a.(shared := a.shared[28 := v])
      else if a.inUser then a.(user := a.user[r - 28 := v]) else a.(supervisor := a.supervisor[r - 28 := v])
    case TrapOp(epc, cause, mode) =>
      a.(inUser := false, pu := a.inUser, pie := a.ie, ie := false, psm := mode, epc := epc, cause := cause)
    case IretOp => a.(inUser := a.inUser || a.pu, ie := a.pie)
    case SrOp(n, v) =>
      var sr := SrOf(n);
      if sr.None? then a else TwoBankWrite(a, sr.value, v)
  }

  function TwoBankWrite(a: TwoBanks, sr: Sr, v: Word): (b: TwoBanks)
    requires Shaped(a.vm) && ValidSr(sr)
    ensures Shaped(b.vm) && b.shared == a.shared
  {
    match sr
    case Status => a.(ie := Bit(v, 0), pie := Bit(v, 1), pu := Bit(v, 3), psm := if Bit(v, 4) then Short else Normal)
    case Epc => a.(epc := v)
    case Cause => a.(cause := v)
    case UserBank(k) => a.(user := a.user[k := v])
    case RegionField(k, field) => a.(regions := a.regions[k := SetRegion(a.regions[k], field, v)])
    case other => a.(vm := WriteVm(a.vm, other, v))
  }

  lemma BankSlices(reg: Regs, b: Bank)
    ensures LiveBank(WithBank(reg, b)) == b && Shared(WithBank(reg, b)) == Shared(reg)
    ensures WithBank(WithBank(reg, b), LiveBank(reg)) == reg
  {
  }

  lemma WriteSlices(reg: Regs, r: Reg, v: Word)
    requires r != 0
    ensures 28 <= r < 31 ==> LiveBank(reg[r := v]) == LiveBank(reg)[r - 28 := v] && Shared(reg[r := v]) == Shared(reg)
    ensures r < 28 ==> LiveBank(reg[r := v]) == LiveBank(reg) && Shared(reg[r := v]) == Shared(reg)[r := v]
    ensures r == 31 ==> LiveBank(reg[r := v]) == LiveBank(reg) && Shared(reg[r := v]) == Shared(reg)[28 := v]
  {
  }

  /** Swapping on mode changes refines two banks that stay where they are. */
  lemma StepRefinesBanks(s: System, reg: Regs, op: Op)
    requires Shaped(s.vm)
    ensures var (t, q) := Step(s, reg, op); Abstract(t, q) == TwoBankStep(Abstract(s, reg), op)
  {
    match op {
      case RegOp(r, v) => if r != 0 { WriteSlices(reg, r, v); }
      case TrapOp(epc, cause, mode) => BankSlices(reg, s.other);
      case IretOp => BankSlices(reg, s.other);
      case SrOp(n, v) => SrRefinesBanks(s, reg, n, v);
    }
  }

  lemma SrRefinesBanks(s: System, reg: Regs, n: Half, v: Word)
    requires Shaped(s.vm)
    ensures var (t, q) := Step(s, reg, SrOp(n, v)); Abstract(t, q) == TwoBankStep(Abstract(s, reg), SrOp(n, v))
  {
    var sr := SrOf(n);
    if sr.Some? {
      WriteRefinesBanks(s, reg, sr.value, v);
    }
  }

  lemma WriteRefinesBanks(s: System, reg: Regs, sr: Sr, v: Word)
    requires Shaped(s.vm) && ValidSr(sr)
    ensures var (t, q) := WriteKnown(s, reg, sr, v); Abstract(t, q) == TwoBankWrite(Abstract(s, reg), sr, v)
  {
    hide Bit, SetRegion;
    if sr.UserBank? {
      WriteSlices(reg, 28 + sr.k, v);
    }
  }

  function Run(s: System, reg: Regs, ops: seq<Op>): (r: (System, Regs))
    requires Shaped(s.vm)
    ensures Shaped(r.0.vm)
    decreases |ops|
  {
    if ops == [] then (s, reg)
    else
      var (t, q) := Run(s, reg, ops[..|ops| - 1]);
      Step(t, q, ops[|ops| - 1])
  }

  function TwoBankRun(a: TwoBanks, ops: seq<Op>): (b: TwoBanks)
    requires Shaped(a.vm) && |a.shared| == 29
    ensures Shaped(b.vm) && |b.shared| == 29
    decreases |ops|
  {
    if ops == [] then a else TwoBankStep(TwoBankRun(a, ops[..|ops| - 1]), ops[|ops| - 1])
  }

  /** Main result: over every sequence of register writes, traps, IRETs and MTSRs. */
  lemma {:induction false} RunRefinesBanks(s: System, reg: Regs, ops: seq<Op>)
    requires Shaped(s.vm)
    ensures var (t, q) := Run(s, reg, ops); Abstract(t, q) == TwoBankRun(Abstract(s, reg), ops)
    decreases |ops|
  {
    hide Step, TwoBankStep, Abstract;
    if ops == [] {
    } else {
      RunRefinesBanks(s, reg, ops[..|ops| - 1]);
      var (t, q) := Run(s, reg, ops[..|ops| - 1]);
      StepRefinesBanks(t, q, ops[|ops| - 1]);
    }
  }

  /** The user bit changes only by a trap or by IRET. */
  lemma {:induction false} UserBitOnlyByTrapOrIret(s: System, reg: Regs, ops: seq<Op>)
    requires Shaped(s.vm) && forall k :: 0 <= k < |ops| ==> !ops[k].TrapOp? && !ops[k].IretOp?
    ensures Run(s, reg, ops).0.user == s.user
    decreases |ops|
  {
    if ops == [] {
    } else {
      UserBitOnlyByTrapOrIret(s, reg, ops[..|ops| - 1]);
    }
  }

  // ---- IRET undoes a trap ----

  /** A handler that does not trap, return, or write what the trap saved. */
  predicate Unnested(op: Op) {
    !op.TrapOp? && !op.IretOp?
    && (op.SrOp? ==> var sr := SrOf(op.n); sr.None? || !(sr.value.Status? || sr.value.Epc? || sr.value.UserBank?))
  }

  /** What the trap saved, and the user's registers. */
  predicate KeepsSaved(a: TwoBanks, b: TwoBanks) {
    b.user == a.user && !b.inUser && b.pu == a.pu && b.pie == a.pie && b.psm == a.psm && b.epc == a.epc
  }

  lemma UnnestedKeeps(a: TwoBanks, op: Op)
    requires Shaped(a.vm) && |a.shared| == 29 && !a.inUser && Unnested(op)
    ensures KeepsSaved(a, TwoBankStep(a, op))
  {
  }

  lemma {:induction false} HandlerKeeps(a: TwoBanks, ops: seq<Op>)
    requires Shaped(a.vm) && |a.shared| == 29 && !a.inUser && forall k :: 0 <= k < |ops| ==> Unnested(ops[k])
    ensures KeepsSaved(a, TwoBankRun(a, ops))
    decreases |ops|
  {
    hide TwoBankStep, Unnested;
    if ops == [] {
    } else {
      HandlerKeeps(a, ops[..|ops| - 1]);
      UnnestedKeeps(TwoBankRun(a, ops[..|ops| - 1]), ops[|ops| - 1]);
    }
  }

  /** After a trap, any handler that does not nest, and IRET: the CPU resumes where it was, in the
      mode it was in, with the interrupt enable it had, and a user program finds its own R28 to R30. */
  lemma IretUndoesTrap(s: System, reg: Regs, epc: Word, cause: Word, mode: Mode, handler: seq<Op>)
    requires Shaped(s.vm) && forall k :: 0 <= k < |handler| ==> Unnested(handler[k])
    ensures var (t, q) := EnterTrap(s, reg, epc, cause, mode);
            Shaped(t.vm)
            && var (u, p) := Run(t, q, handler);
               var (v, r, pc, m) := LeaveTrap(u, p);
               && pc == epc && m == mode && v.user == s.user && v.ie == s.ie
               && (s.user ==> LiveBank(r) == LiveBank(reg) && v.other == LiveBank(p))
               && (!s.user ==> r == p)
               && (handler == [] ==> r == reg && v.other == s.other)
  {
    var (t, q) := EnterTrap(s, reg, epc, cause, mode);
    var (u, p) := Run(t, q, handler);
    StepRefinesBanks(s, reg, TrapOp(epc, cause, mode));
    RunRefinesBanks(t, q, handler);
    HandlerKeeps(Abstract(t, q), handler);
    StepRefinesBanks(u, p, IretOp);
    BankSlices(p, u.other);
    BankSlices(reg, s.other);
  }

  // ---- protection regions ----

  predicate RegionGrants(r: Region, a: Word, access: Access) {
    (match access case Read => r.r case Write => r.w case Fetch => r.x) && r.start <= a < r.end
  }

  /** Some region grants byte `a`. */
  predicate RegionsGrant(regions: Regions, a: Word, access: Access) {
    exists n :: 0 <= n < REGIONS && RegionGrants(regions[n], a, access)
  }

  /** `allows` without translation. */
  predicate Allows(s: System, addr: Word, len: nat, access: Access) {
    !s.user || forall k :: 0 <= k < len ==> Plus(addr, k) < RESERVED && RegionsGrant(s.regions, Plus(addr, k), access)
  }

  /** `check_access`: supervisor code is never checked; user code by pages or by regions. */
  function CheckAccess(s: System, mem: Memory, addr: Word, len: nat, access: Access): (System, Option<Exception>)
    requires Shaped(s.vm) && len > 0
  {
    if !(s.user && s.vm.enabled) then
      (s, if Allows(s, addr, len, access) then None else Some(ProtectionFault(access)))
    else
      var (vm, fault) := CheckPages(s.vm, mem, addr, Plus(addr, len - 1), PageOf(addr), access);
      (s.(vm := vm), fault)
  }

  /** Main result for user accesses of 1 to 4 bytes: an accepted one has every byte below the reserved
      range and granted by a region or by a user leaf with the needed permission; a refused one
      changes nothing but the translation buffer. */
  lemma CheckedAccess(s: System, mem: Memory, addr: Word, len: nat, access: Access)
    requires Consistent(s.vm, mem) && s.user && 1 <= len <= 4
    ensures var (t, fault) := CheckAccess(s, mem, addr, len, access);
            && t == s.(vm := s.vm.(tlb := t.vm.tlb, next := t.vm.next)) && Consistent(t.vm, mem)
            && (fault.None? ==> forall k :: 0 <= k < len ==>
                  Plus(addr, k) < RESERVED
                  && if s.vm.enabled then PageGranted(s.vm.ptbr, mem, PageOf(Plus(addr, k)), access)
                     else RegionsGrant(s.regions, Plus(addr, k), access))
            && (!s.vm.enabled ==> t == s)
  {
    if s.vm.enabled {
      CheckIsFresh(s.vm, mem, addr, Plus(addr, len - 1), PageOf(addr), access);
      if CheckAccess(s, mem, addr, len, access).1.None? {
        forall k | 0 <= k < len
          ensures Plus(addr, k) < RESERVED && PageGranted(s.vm.ptbr, mem, PageOf(Plus(addr, k)), access)
        {
          AcceptedBytes(s.vm.ptbr, mem, addr, len, access, k);
        }
      }
    }
  }

  // ---- the pipeline and the block compiler may rely on it ----

  /** The answer of a check, which does not depend on what the buffer holds. */
  function CheckAnswer(mem: Memory, s: System, addr: Word, len: nat, access: Access): Option<Exception> {
    if !(s.user && s.vm.enabled) then if Allows(s, addr, len, access) then None else Some(ProtectionFault(access))
    else if len == 0 then None
    else FreshCheck(s.vm.ptbr, mem, addr, Plus(addr, len - 1), PageOf(addr), access)
  }

  lemma CheckAnswers(s: System, mem: Memory, addr: Word, len: nat, access: Access)
    requires Consistent(s.vm, mem) && len > 0
    ensures CheckAccess(s, mem, addr, len, access).1 == CheckAnswer(mem, s, addr, len, access)
  {
    CheckIsFresh(s.vm, mem, addr, Plus(addr, len - 1), PageOf(addr), access);
  }
}
