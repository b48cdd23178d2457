/** The scalar CPU with translation through the buffer, against translation straight from the tables. */
module PagedScalar {
  import opened Isa
  import opened Wrappers
  import opened Tlb
  import opened Privilege
  import opened PagedPlatform

  /** The cores agree on everything but fetches and data accesses. */
  ghost predicate SameCore<M, S>(e: Platform<M, S>, f: Platform<M, S>) {
    f == e.(normal := f.normal, short := f.short, load := f.load, store := f.store, check := f.check)
  }

  /** A data access: address, width, and what for. */
  datatype DataAccess = DataAccess(addr: Word, width: Width, access: Access)

  /** The data access of an instruction. */
  function AccessOf(reg: Regs, d: Decoded): Option<DataAccess> {
    match d
    case N(Load(_, base, offset, width)) => Some(DataAccess(Plus(ReadReg(reg, base), offset), width, Read))
    case N(Store(_, base, offset, width)) => Some(DataAccess(Plus(ReadReg(reg, base), offset), width, Write))
    case Sh(SLoad(_, rs1)) => Some(DataAccess(ReadReg(reg, Gpr(rs1)), 4, Read))
    case Sh(SStore(rd, _)) => Some(DataAccess(ReadReg(reg, Gpr(rd)), 4, Write))
    case _ => None
  }

  /** They agree on one data access. */
  ghost predicate SameData<M, S(!new)>(e: Platform<M, S>, f: Platform<M, S>, s: S, m: M, a: DataAccess) {
    && e.check(s, a.addr, a.width, a.access) == f.check(s, a.addr, a.width, a.access)
    && (e.check(s, a.addr, a.width, a.access).None? ==>
          && e.load(m, s, a.addr, a.width) == f.load(m, s, a.addr, a.width)
          && forall v: Word :: e.store(m, s, a.addr, a.width, v) == f.store(m, s, a.addr, a.width, v))
  }

  /** They agree on one fetch. */
  predicate SameFetch<M, S>(e: Platform<M, S>, f: Platform<M, S>, s: S, pc: Word, mode: Mode) {
    && e.check(s, pc, Size(mode), Fetch) == f.check(s, pc, Size(mode), Fetch)
    && (e.check(s, pc, Size(mode), Fetch).None? ==> Code(e, s, pc, mode) == Code(f, s, pc, mode))
  }

  lemma SameTrap<M, S>(e: Platform<M, S>, f: Platform<M, S>, s: State<M, S>, x: Exception, epc: Word)
    requires SameCore(e, f)
    ensures EnterException(e, s, x, epc) == EnterException(f, s, x, epc)
  {
  }

  lemma SameNormal<M, S(!new)>(e: Platform<M, S>, f: Platform<M, S>, s: State<M, S>, i: Instr)
    requires SameCore(e, f) && (AccessOf(s.reg, N(i)).Some? ==> SameData(e, f, s.sys, s.mem, AccessOf(s.reg, N(i)).value))
    ensures ExecuteNormal(e, s, i) == ExecuteNormal(f, s, i)
  {
  }

  lemma SameShort<M, S(!new)>(e: Platform<M, S>, f: Platform<M, S>, s: State<M, S>, i: ShortInstr)
    requires SameCore(e, f) && (AccessOf(s.reg, Sh(i)).Some? ==> SameData(e, f, s.sys, s.mem, AccessOf(s.reg, Sh(i)).value))
    ensures ExecuteShort(e, s, i) == ExecuteShort(f, s, i)
  {
  }

  lemma SameStep<M, S(!new)>(e: Platform<M, S>, f: Platform<M, S>, s: State<M, S>)
    requires SameCore(e, f) && SameFetch(e, f, s.sys, s.pc, s.mode)
    requires e.check(s.sys, s.pc, Size(s.mode), Fetch).None? ==>
               var a := AccessOf(s.reg, Code(e, s.sys, s.pc, s.mode));
               a.Some? ==> SameData(e, f, s.sys, s.mem, a.value)
    ensures Isa.Step(e, s) == Isa.Step(f, s)
  {
    hide ExecuteNormal, ExecuteShort, EnterException, SameData, SameCore, AccessOf;
    match e.check(s.sys, s.pc, Size(s.mode), Fetch) {
      case Some(x) => SameTrap(e, f, s, x, s.pc);
      case None =>
        var t := s.(executed := s.executed + 1);
        if s.mode == Normal {
          assert Code(e, s.sys, s.pc, s.mode) == N(e.normal(s.sys, s.pc));
          SameNormal(e, f, t, e.normal(s.sys, s.pc));
        } else {
          assert Code(e, s.sys, s.pc, s.mode) == Sh(e.short(s.sys, s.pc));
          SameShort(e, f, t, e.short(s.sys, s.pc));
        }
    }
  }

  // ---- one instruction through the buffer ----

  /** The CPU and the real buffer. The buffer inside the privilege state is not used. */
  datatype Paged<!M> = Paged(s: State<M, System>, b: Buffer)

  /** The buffer is one of this privilege state. */
  predicate Owns<M>(x: Board<M>, sys: System, b: Buffer) {
    Shaped(sys.vm) && BufferOk(x.tables, sys, b)
  }

  lemma OwnsFits<M>(x: Board<M>, sys: System, b: Buffer)
    requires Owns(x, sys, b)
    ensures Fits(b) && Shaped(sys.vm)
  {
  }

  /** The instruction at the PC, if its fetch is allowed, and the buffer behind the fetch. */
  function Fetched<M>(x: Board<M>, w: Paged<M>): (r: (Buffer, Option<Decoded>))
    requires Fits(w.b)
    ensures Fits(r.0)
  {
    var (b, fault) := Checked(x.tables, w.s.sys, w.b, w.s.pc, Size(w.s.mode), Fetch);
    (b, if fault.Some? then None
        else Some(Code(BufferPlatform(x, Buffers(w.b, b, b, b)), w.s.sys, w.s.pc, w.s.mode)))
  }

  /** The buffers one instruction uses: the fetch comes first, then the data access. */
  function StepBuffers<M>(x: Board<M>, w: Paged<M>): (bs: Buffers)
    requires Fits(w.b)
    ensures Fits(bs.data)
  {
    var (b, d) := Fetched(x, w);
    var a := if d.None? then None else AccessOf(w.s.reg, d.value);
    Buffers(w.b, b, b,
            if a.None? then b else Checked(x.tables, w.s.sys, b, a.value.addr, a.value.width, a.value.access).0)
  }

  /** MTSR of supervisor code may flush the buffer. */
  function AfterMtsr<M>(w: Paged<M>, b: Buffer, d: Option<Decoded>): (c: Buffer)
    requires Fits(b)
    ensures Fits(c)
  {
    if d.Some? && d.value.N? && d.value.insn.Mtsr? && !w.s.sys.user
    then Written(w.s.sys, b, w.s.reg, d.value.insn.sr, ReadReg(w.s.reg, d.value.insn.rs)) else b
  }

  /** One instruction. */
  function PagedStep<M>(x: Board<M>, w: Paged<M>): (v: Paged<M>)
    requires Fits(w.b)
    ensures Fits(v.b)
  {
    if !w.s.running then w
    else
      var bs := StepBuffers(x, w);
      Paged(Isa.Step(BufferPlatform(x, bs), w.s), AfterMtsr(w, bs.data, Fetched(x, w).1))
  }

  /** None of its accesses loses a page. */
  predicate Keeps<M>(x: Board<M>, w: Paged<M>)
    requires Fits(w.b)
  {
    var (b, d) := Fetched(x, w);
    && !Loses(x.tables, w.s.sys, w.b, w.s.pc, Size(w.s.mode))
    && (d.Some? && AccessOf(w.s.reg, d.value).Some? ==>
          var a := AccessOf(w.s.reg, d.value).value; !Loses(x.tables, w.s.sys, b, a.addr, a.width))
  }

  lemma BuffersShareCore<M>(x: Board<M>, bs: Buffers)
    ensures SameCore(BufferPlatform(x, bs), TablePlatform(x))
  {
  }

  /** A data access that keeps its pages is the same on both. */
  lemma KeptIsSame<M(!new)>(x: Board<M>, bs: Buffers, s: System, m: M, a: DataAccess)
    requires BufferOk(x.tables, s, bs.dataCheck) && a.access != Fetch
    requires bs.data == Checked(x.tables, s, bs.dataCheck, a.addr, a.width, a.access).0
    requires !Loses(x.tables, s, bs.dataCheck, a.addr, a.width)
    ensures SameData(BufferPlatform(x, bs), TablePlatform(x), s, m, a)
  {
    CheckedIsAnswer(x.tables, s, bs.dataCheck, a.addr, a.width, a.access);
    if Checked(x.tables, s, bs.dataCheck, a.addr, a.width, a.access).1.None? {
      KeptData(x, bs, s, m, a.addr, a.width, a.access, 0);
      forall v: Word
        ensures BufferPlatform(x, bs).store(m, s, a.addr, a.width, v) == TablePlatform(x).store(m, s, a.addr, a.width, v)
      {
        KeptData(x, bs, s, m, a.addr, a.width, a.access, v);
      }
    }
  }

  /** So is a fetch. */
  lemma KeptIsSameFetch<M(!new)>(x: Board<M>, bs: Buffers, s: System, pc: Word, mode: Mode)
    requires BufferOk(x.tables, s, bs.fetchCheck) && bs.fetch == Checked(x.tables, s, bs.fetchCheck, pc, Size(mode), Fetch).0
    requires !Loses(x.tables, s, bs.fetchCheck, pc, Size(mode))
    ensures SameFetch(BufferPlatform(x, bs), TablePlatform(x), s, pc, mode)
  {
    CheckedIsAnswer(x.tables, s, bs.fetchCheck, pc, Size(mode), Fetch);
    if Checked(x.tables, s, bs.fetchCheck, pc, Size(mode), Fetch).1.None? {
      KeptFetch(x, bs, s, pc, mode);
    }
  }

  /** An instruction that keeps its pages does what it would do straight from the tables. */
  lemma PagedStepIsStep<M(!new)>(x: Board<M>, w: Paged<M>)
    requires Owns(x, w.s.sys, w.b) && Keeps(x, w)
    ensures PagedStep(x, w).s == Isa.Step(TablePlatform(x), w.s)
  {
    if w.s.running {
      var bs, t := StepBuffers(x, w), TablePlatform(x);
      var e := BufferPlatform(x, bs);
      BuffersShareCore(x, bs);
      KeptIsSameFetch(x, bs, w.s.sys, w.s.pc, w.s.mode);
      CheckedIsAnswer(x.tables, w.s.sys, w.b, w.s.pc, Size(w.s.mode), Fetch);
      var (b, d) := Fetched(x, w);
      SameText(x, w.b, bs, Buffers(w.b, b, b, b), w.s.sys, w.s.pc, w.s.mode);
      if d.Some? && AccessOf(w.s.reg, d.value).Some? {
        KeptIsSame(x, bs, w.s.sys, w.s.mem, AccessOf(w.s.reg, d.value).value);
      }
      SameStep(e, t, w.s);
    }
  }

  /** What is fetched does not depend on the buffers of the data access. */
  lemma SameText<M>(x: Board<M>, first: Buffer, bs: Buffers, cs: Buffers, s: System, pc: Word, mode: Mode)
    requires bs.fetch == cs.fetch && bs.fetchCheck == cs.fetchCheck == first
    ensures Code(BufferPlatform(x, bs), s, pc, mode) == Code(BufferPlatform(x, cs), s, pc, mode)
    ensures BufferPlatform(x, bs).check(s, pc, Size(mode), Fetch) == BufferPlatform(x, cs).check(s, pc, Size(mode), Fetch)
  {
  }

  /** The buffer stays that of the privilege state. */
  lemma StepKeepsOk<M(!new)>(x: Board<M>, w: Paged<M>)
    requires Owns(x, w.s.sys, w.b) && Keeps(x, w)
    ensures Owns(x, PagedStep(x, w).s.sys, PagedStep(x, w).b)
  {
    PagedStepIsStep(x, w);
    if w.s.running {
      CheckedIsAnswer(x.tables, w.s.sys, w.b, w.s.pc, Size(w.s.mode), Fetch);
      KeptIsSameFetch(x, StepBuffers(x, w), w.s.sys, w.s.pc, w.s.mode);
      var (b, d) := Fetched(x, w);
      SameText(x, w.b, StepBuffers(x, w), Buffers(w.b, b, b, b), w.s.sys, w.s.pc, w.s.mode);
      if d.Some? && AccessOf(w.s.reg, d.value).Some? {
        var a := AccessOf(w.s.reg, d.value).value;
        CheckedIsAnswer(x.tables, w.s.sys, b, a.addr, a.width, a.access);
      }
      SystemAfter(x, w.s, StepBuffers(x, w).data, d);
    }
  }

  /** The privilege state after an instruction, and the buffer that belongs to it. */
  lemma SystemAfter<M(!new)>(x: Board<M>, s: State<M, System>, b: Buffer, d: Option<Decoded>)
    requires s.running && Owns(x, s.sys, b)
    requires TablePlatform(x).check(s.sys, s.pc, Size(s.mode), Fetch).Some? <==> d.None?
    requires d.Some? ==> d.value == Code(TablePlatform(x), s.sys, s.pc, s.mode)
    ensures Owns(x, Isa.Step(TablePlatform(x), s).sys, AfterMtsr(Paged(s, b), b, d))
  {
    hide Consistent, ExecuteNormal, ExecuteShort, EnterException;
    var t, u := TablePlatform(x), s.(executed := s.executed + 1);
    if d.None? {
      var e := t.check(s.sys, s.pc, Size(s.mode), Fetch).value;
      assert Isa.Step(t, s) == EnterException(t, s, e, s.pc);
      TrapAfter(x, s, b, e, s.pc);
    } else if s.mode == Normal {
      assert Isa.Step(t, s) == ExecuteNormal(t, u, d.value.insn);
      NormalAfter(x, u, b, d.value.insn);
    } else {
      assert Isa.Step(t, s) == ExecuteShort(t, u, d.value.short);
      ShortAfter(x, u, b, d.value.short);
    }
  }

  /** Exception entry keeps the buffer's owner. */
  lemma TrapAfter<M>(x: Board<M>, s: State<M, System>, b: Buffer, e: Exception, epc: Word)
    requires Owns(x, s.sys, b)
    ensures Owns(x, EnterException(TablePlatform(x), s, e, epc).sys, b)
    ensures Owns(x, DataFault(TablePlatform(x), s, e, epc).sys, b)
  {
    TrapsAreOk(x, s.sys, b, s.reg, e, epc, s.mode);
  }

  lemma NormalAfter<M(!new)>(x: Board<M>, s: State<M, System>, b: Buffer, i: Instr)
    requires Owns(x, s.sys, b)
    ensures Owns(x, ExecuteNormal(TablePlatform(x), s, i).sys, AfterMtsr(Paged(s, b), b, Some(N(i))))
  {
    hide Consistent, WriteKnown, EnterException;
    var t := TablePlatform(x);
    var u := ExecuteNormal(t, s, i);
    if s.sys.user && Privileged(i) {
      TrapAfter(x, s, b, PrivilegedInstruction, s.pc);
    } else if i.Mtsr? {
      var v := ReadReg(s.reg, i.rs);
      if WriteSr(s.sys, s.reg, i.sr, v).Some? {
        WrittenIsOk(x.tables, s.sys, b, s.reg, i.sr, v);
      } else {
        TrapAfter(x, s, b, IllegalInstruction, s.pc);
      }
    } else if u.sys != s.sys {
      TrapOrReturn(x, s, b, i);
    }
  }

  /** Everything else that changes the privilege state is a trap or IRET. */
  lemma TrapOrReturn<M(!new)>(x: Board<M>, s: State<M, System>, b: Buffer, i: Instr)
    requires Owns(x, s.sys, b) && !(s.sys.user && Privileged(i)) && !i.Mtsr?
    ensures Owns(x, ExecuteNormal(TablePlatform(x), s, i).sys, b)
  {
    hide Consistent, EnterException, Written, ReadReg, SetReg, MergeLow, MergeHigh, Narrow, CheckAnswer, ReadSr, WriteSr, ReadData,
      WriteData, Truth;
    var t := TablePlatform(x);
    match i {
      case Load(rd, base, offset, width) =>
        var a := Plus(ReadReg(s.reg, base), offset);
        if t.check(s.sys, a, width, Read).Some? {
          TrapAfter(x, s, b, t.check(s.sys, a, width, Read).value, s.pc);
        }
      case Store(rd, base, offset, width) =>
        var a := Plus(ReadReg(s.reg, base), offset);
        if t.check(s.sys, a, width, Write).Some? {
          TrapAfter(x, s, b, t.check(s.sys, a, width, Write).value, s.pc);
        }
      case Iret => TrapsAreOk(x, s.sys, b, s.reg, IllegalInstruction, s.pc, s.mode);
      case Syscall(number) => TrapAfter(x, s, b, SyscallTrap(number), Plus(s.pc, 4));
      case Mfsr(rd, sr) => TrapAfter(x, s, b, IllegalInstruction, s.pc);
      case Unknown => TrapAfter(x, s, b, IllegalInstruction, s.pc);
      case _ =>
    }
  }

  lemma ShortAfter<M(!new)>(x: Board<M>, s: State<M, System>, b: Buffer, i: ShortInstr)
    requires Owns(x, s.sys, b)
    ensures Owns(x, ExecuteShort(TablePlatform(x), s, i).sys, b)
  {
    var t := TablePlatform(x);
    match i {
      case SLoad(rd, rs1) =>
        var a := ReadReg(s.reg, Gpr(rs1));
        if t.check(s.sys, a, 4, Read).Some? {
          TrapAfter(x, s, b, t.check(s.sys, a, 4, Read).value, s.pc);
        }
      case SStore(rd, rs1) =>
        var a := ReadReg(s.reg, Gpr(rd));
        if t.check(s.sys, a, 4, Write).Some? {
          TrapAfter(x, s, b, t.check(s.sys, a, 4, Write).value, s.pc);
        }
      case SUnknown => TrapAfter(x, s, b, IllegalInstruction, s.pc);
      case _ =>
    }
  }

  // ---- runs ----

  function PagedSteps<M>(x: Board<M>, w: Paged<M>, n: nat): (v: Paged<M>)
    requires Fits(w.b)
    ensures Fits(v.b)
  {
    if n == 0 then w else PagedStep(x, PagedSteps(x, w, n - 1))
  }

  predicate KeepsFor<M>(x: Board<M>, w: Paged<M>, n: nat)
    requires Fits(w.b)
  {
    match n
    case 0 => true
    case _ => KeepsFor(x, w, n - 1) && Keeps(x, PagedSteps(x, w, n - 1))
  }

  /** A run whose accesses keep their pages is the run straight from the tables. */
  lemma {:induction false} PagedStepsAreSteps<M(!new)>(x: Board<M>, w: Paged<M>, n: nat)
    requires Owns(x, w.s.sys, w.b) && KeepsFor(x, w, n)
    ensures PagedSteps(x, w, n).s == Steps(TablePlatform(x), w.s, n)
    ensures Owns(x, PagedSteps(x, w, n).s.sys, PagedSteps(x, w, n).b)
  {
    if n == 0 {
    } else {
      PagedStepsAreSteps(x, w, n - 1);
      var v := PagedSteps(x, w, n - 1);
      PagedStepIsStep(x, v);
      StepKeepsOk(x, v);
    }
  }

  lemma {:induction false} KeepsForLess<M>(x: Board<M>, w: Paged<M>, m: nat, n: nat)
    requires Fits(w.b) && m <= n && KeepsFor(x, w, n)
    ensures KeepsFor(x, w, m)
  {
    if m == n {
    } else {
      KeepsForLess(x, w, m, n - 1);
    }
  }
}
