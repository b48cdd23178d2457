/**
 From a protected image to the region registers: what user code may touch once a loader has written
 the image's regions with MTSR.
 */
module WaxRegions {
  import opened Isa
  import opened Bytes
  import opened WaxFormat
  import opened Wrappers
  import P = Privilege
  import T = Tlb

  /** The MTSRs of the first `n` regions: start, end and flags of each. */
  function LoaderWrites(rs: seq<UserRegion>, n: nat): seq<P.Op>
    requires n <= |rs| <= P.REGIONS && forall i :: 0 <= i < |rs| ==> rs[i].start < LIMIT && rs[i].end < LIMIT
  {
    if n == 0 then []
    else
      LoaderWrites(rs, n - 1)
      + [P.SrOp(RegionSr(n - 1, 0), rs[n - 1].start), P.SrOp(RegionSr(n - 1, 1), rs[n - 1].end),
         P.SrOp(RegionSr(n - 1, 2), rs[n - 1].flags)]
  }

  function RegionSr(i: nat, field: nat): (n: Half)
    requires i < P.REGIONS && field < 3
  {
    0x10 + 4 * i + field
  }

  lemma RegionSrOf(i: nat, field: nat)
    requires i < P.REGIONS && field < 3
    ensures P.SrOf(RegionSr(i, field)) == Some(P.RegionField(i, field))
  {
    var n := RegionSr(i, field);
    assert n >= 0x10 && n < 0x30 && (n - 0x10) / 4 == i && (n - 0x10) % 4 == field;
  }

  /** A region register holding `r`. */
  function Loaded(r: UserRegion): P.Region
    requires r.start < LIMIT && r.end < LIMIT
  {
    P.Region(r.start, r.end, T.Bit(r.flags, 0), T.Bit(r.flags, 1), T.Bit(r.flags, 2))
  }

  lemma RunOne(s: P.System, reg: Regs, ops: seq<P.Op>, a: P.Op)
    requires T.Shaped(s.vm)
    ensures P.Run(s, reg, ops + [a]) == P.Step(P.Run(s, reg, ops).0, P.Run(s, reg, ops).1, a)
  {
    hide P.Step;
    assert (ops + [a])[..|ops|] == ops;
  }

  lemma RunThree(s: P.System, reg: Regs, ops: seq<P.Op>, a: P.Op, b: P.Op, c: P.Op)
    requires T.Shaped(s.vm)
    ensures var r0 := P.Run(s, reg, ops);
            var r1 := P.Step(r0.0, r0.1, a);
            var r2 := P.Step(r1.0, r1.1, b);
            P.Run(s, reg, ops + [a, b, c]) == P.Step(r2.0, r2.1, c)
  {
    hide P.Step, P.Run;
    assert ops + [a, b, c] == ops + [a] + [b] + [c];
    RunOne(s, reg, ops, a);
    RunOne(s, reg, ops + [a], b);
    RunOne(s, reg, ops + [a] + [b], c);
  }

  lemma OneRegion(s: P.System, reg: Regs, i: nat, r: UserRegion)
    requires T.Shaped(s.vm) && i < P.REGIONS && r.start < LIMIT && r.end < LIMIT
    ensures var r1 := P.Step(s, reg, P.SrOp(RegionSr(i, 0), r.start));
            var r2 := P.Step(r1.0, r1.1, P.SrOp(RegionSr(i, 1), r.end));
            P.Step(r2.0, r2.1, P.SrOp(RegionSr(i, 2), r.flags)) == (s.(regions := s.regions[i := Loaded(r)]), reg)
  {
    RegionSrOf(i, 0);
    RegionSrOf(i, 1);
    RegionSrOf(i, 2);
    var was := s.regions[i];
    var s1 := s.regions[i := was.(start := r.start)];
    var s2 := s1[i := s1[i].(end := r.end)];
    assert s2[i := Loaded(r)] == s.regions[i := Loaded(r)];
  }

  /** The loader's MTSRs write the region registers and nothing else. */
  lemma {:induction false} LoaderWritesRegions(s: P.System, reg: Regs, rs: seq<UserRegion>, n: nat)
    requires T.Shaped(s.vm)
    requires n <= |rs| <= P.REGIONS && forall i :: 0 <= i < |rs| ==> rs[i].start < LIMIT && rs[i].end < LIMIT
    ensures var (t, q) := P.Run(s, reg, LoaderWrites(rs, n));
            && t == s.(regions := t.regions) && q == reg
            && forall i :: 0 <= i < P.REGIONS ==> t.regions[i] == if i < n then Loaded(rs[i]) else s.regions[i]
  {
    hide P.Step, RegionSr, Loaded;
    if n == 0 {
    } else {
      hide P.Run;
      LoaderWritesRegions(s, reg, rs, n - 1);
      var (t, q) := P.Run(s, reg, LoaderWrites(rs, n - 1));
      var r := rs[n - 1];
      RunThree(s, reg, LoaderWrites(rs, n - 1), P.SrOp(RegionSr(n - 1, 0), r.start), P.SrOp(RegionSr(n - 1, 1), r.end),
               P.SrOp(RegionSr(n - 1, 2), r.flags));
      OneRegion(t, q, n - 1, r);
      var u := P.Run(s, reg, LoaderWrites(rs, n)).0;
      assert u.regions == t.regions[n - 1 := Loaded(r)];
    }
  }

  // ---- what user code may touch ----

  /** Permission bit of an access. */
  predicate Permits(flags: U32, access: Access) {
    match access
    case Read => T.Bit(flags, 0)
    case Write => T.Bit(flags, 1)
    case Fetch => T.Bit(flags, 2)
  }

  /** The image grants byte `a`: it is on the stack, for data, or in a block with that permission. */
  predicate ImageGrants(p: Protection, blocks: seq<Block>, a: Word, access: Access) {
    || (p.stackTop - p.stackSize <= a < p.stackTop && access != Fetch)
    || exists k :: 0 <= k < |blocks| && InBlock(blocks[k], a) && Permits(blocks[k].perm, access)
  }

  predicate GrantsNothing(r: P.Region) {
    !r.r && !r.w && !r.x
  }

  /** The registers hold the image's regions, and nothing else grants anything. */
  ghost predicate Holding(regions: P.Regions, rs: seq<UserRegion>) {
    && |rs| <= P.REGIONS
    && (forall i :: 0 <= i < |rs| ==> rs[i].start < LIMIT && rs[i].end < LIMIT && regions[i] == Loaded(rs[i]))
    && (forall i :: |rs| <= i < P.REGIONS ==> GrantsNothing(regions[i]))
  }

  lemma RegionsGrantImage(p: Protection, blocks: seq<Block>, regions: P.Regions, a: Word, access: Access)
    requires p.stackSize <= p.stackTop && Holding(regions, UserRegions(p, blocks))
    ensures P.RegionsGrant(regions, a, access) <==> ImageGrants(p, blocks, a, access)
  {
    hide UserRegions;
    var rs := UserRegions(p, blocks);
    RegionAt(p, blocks, 0);
    if P.RegionsGrant(regions, a, access) {
      var n :| 0 <= n < P.REGIONS && P.RegionGrants(regions[n], a, access);
      assert n < |rs|;
      RegionAt(p, blocks, n);
      if n > 0 {
        assert InBlock(blocks[n - 1], a) && Permits(blocks[n - 1].perm, access);
      }
    }
    if k :| 0 <= k < |blocks| && InBlock(blocks[k], a) && Permits(blocks[k].perm, access) {
      RegionAt(p, blocks, k + 1);
      assert P.RegionGrants(regions[k + 1], a, access);
    } else if p.stackTop - p.stackSize <= a < p.stackTop && access != Fetch {
      assert P.RegionGrants(regions[0], a, access);
    }
  }

  lemma ImageBelowReserved(image: Image, a: Word, access: Access)
    requires Loadable(image) && image.protection.Some? && ImageGrants(image.protection.value, image.blocks, a, access)
    ensures a < T.RESERVED
  {
  }

  /** Main result: a loader writes the regions of an accepted protected image into registers that
      granted nothing. From then on user code without translation may access a range if and only if
      every byte of it is on the image's stack, for data, or in a block with that permission. */
  lemma UserTouchesOnlyItsImage(image: Image, s: P.System, reg: Regs, addr: Word, len: nat, access: Access)
    requires Loadable(image) && image.protection.Some?
    requires T.Shaped(s.vm) && forall i :: 0 <= i < P.REGIONS ==> GrantsNothing(s.regions[i])
    ensures var rs := UserRegions(image.protection.value, image.blocks);
            && |rs| <= P.REGIONS && (forall i :: 0 <= i < |rs| ==> rs[i].start < LIMIT && rs[i].end < LIMIT)
            && var t := P.Run(s, reg, LoaderWrites(rs, |rs|)).0;
               P.Allows(t.(user := true), addr, len, access) <==>
                 forall k :: 0 <= k < len ==> ImageGrants(image.protection.value, image.blocks, Plus(addr, k), access)
  {
    var p, blocks := image.protection.value, image.blocks;
    var rs := UserRegions(p, blocks);
    forall i | 0 <= i < |rs| ensures rs[i].start < LIMIT && rs[i].end < LIMIT {
      RegionAt(p, blocks, i);
    }
    LoaderWritesRegions(s, reg, rs, |rs|);
    var t := P.Run(s, reg, LoaderWrites(rs, |rs|)).0;
    AllowsIff(image, t.(user := true), addr, len, access);
  }

  lemma AllowsIff(image: Image, t: P.System, addr: Word, len: nat, access: Access)
    requires Loadable(image) && image.protection.Some? && t.user
    requires Holding(t.regions, UserRegions(image.protection.value, image.blocks))
    ensures P.Allows(t, addr, len, access) <==>
              forall k :: 0 <= k < len ==> ImageGrants(image.protection.value, image.blocks, Plus(addr, k), access)
  {
    var p, blocks := image.protection.value, image.blocks;
    forall k | 0 <= k < len
      ensures ImageGrants(p, blocks, Plus(addr, k), access) ==> Plus(addr, k) < T.RESERVED
      ensures P.RegionsGrant(t.regions, Plus(addr, k), access) <==> ImageGrants(p, blocks, Plus(addr, k), access)
    {
      RegionsGrantImage(p, blocks, t.regions, Plus(addr, k), access);
      if ImageGrants(p, blocks, Plus(addr, k), access) {
        ImageBelowReserved(image, Plus(addr, k), access);
      }
    }
  }

  // ---- the entry point ----

  /** What the loader leaves for user code. */
  function ForUser(s: P.System, reg: Regs, rs: seq<UserRegion>): P.System
    requires T.Shaped(s.vm)
    requires |rs| <= P.REGIONS && forall i :: 0 <= i < |rs| ==> rs[i].start < LIMIT && rs[i].end < LIMIT
  {
    P.Run(s, reg, LoaderWrites(rs, |rs|)).0.(user := true)
  }

  lemma RegionsFitRegisters(p: Protection, blocks: seq<Block>)
    requires p.stackSize <= p.stackTop <= CPU_RESERVED
    requires forall k :: 0 <= k < |blocks| ==> blocks[k].addr + |blocks[k].data| <= CPU_RESERVED
    ensures forall i :: 0 <= i < |UserRegions(p, blocks)| ==> UserRegions(p, blocks)[i].start < LIMIT && UserRegions(p, blocks)[i].end < LIMIT
  {
    forall i | 0 <= i < |UserRegions(p, blocks)|
      ensures UserRegions(p, blocks)[i].start < LIMIT && UserRegions(p, blocks)[i].end < LIMIT
    {
      RegionAt(p, blocks, i);
    }
  }

  lemma EntryGranted(p: Protection, blocks: seq<Block>, entry: Word)
    ensures (exists k :: 0 <= k < |blocks| && InBlock(blocks[k], entry) && Executable(blocks[k].perm)) <==>
              ImageGrants(p, blocks, entry, Fetch)
  {
  }

  /** A protected file may have as many blocks as fit the region registers next to the stack. */
  lemma RegistersSuffice(p: Protection, blocks: seq<Block>)
    requires p.stackSize <= p.stackTop
    ensures |UserRegions(p, blocks)| <= P.REGIONS <==> |blocks| <= MAX_PROTECTED_BLOCKS
  {
  }

  /** With the regions of these blocks loaded, user code may fetch at `entry` exactly if an executable block
      holds it. */
  lemma FetchIff(p: Protection, blocks: seq<Block>, s: P.System, reg: Regs, entry: Word)
    requires p.stackSize <= p.stackTop <= CPU_RESERVED && |blocks| <= MAX_PROTECTED_BLOCKS
    requires forall k :: 0 <= k < |blocks| ==> blocks[k].addr + |blocks[k].data| <= CPU_RESERVED
    requires T.Shaped(s.vm) && forall i :: 0 <= i < P.REGIONS ==> GrantsNothing(s.regions[i])
    ensures var rs := UserRegions(p, blocks);
            && |rs| <= P.REGIONS && (forall i :: 0 <= i < |rs| ==> rs[i].start < LIMIT && rs[i].end < LIMIT)
            && (P.Allows(ForUser(s, reg, rs), entry, 1, Fetch) <==>
                  exists k :: 0 <= k < |blocks| && InBlock(blocks[k], entry) && Executable(blocks[k].perm))
  {
    hide UserRegions, P.Run, LoaderWrites, Loaded, Executable, Permits;
    var rs := UserRegions(p, blocks);
    RegionsFitRegisters(p, blocks);
    LoaderWritesRegions(s, reg, rs, |rs|);
    var t := ForUser(s, reg, rs);
    RegionsGrantImage(p, blocks, t.regions, entry, Fetch);
    EntryGranted(p, blocks, entry);
    OneByte(t, entry);
  }

  lemma OneByte(t: P.System, a: Word)
    requires t.user
    ensures P.Allows(t, a, 1, Fetch) <==> a < T.RESERVED && P.RegionsGrant(t.regions, a, Fetch)
  {
    assert Plus(a, 0) == a;
  }

  /** Every accepted protected image starts: after the loader's MTSRs user code may fetch at its entry. */
  lemma EntryIsFetchable(image: Image, s: P.System, reg: Regs)
    requires Loadable(image) && image.protection.Some?
    requires T.Shaped(s.vm) && forall i :: 0 <= i < P.REGIONS ==> GrantsNothing(s.regions[i])
    ensures var rs := UserRegions(image.protection.value, image.blocks);
            && |rs| <= P.REGIONS && (forall i :: 0 <= i < |rs| ==> rs[i].start < LIMIT && rs[i].end < LIMIT)
            && P.Allows(ForUser(s, reg, rs), image.entry, 1, Fetch)
  {
    hide GrantsNothing, UserRegions, ForUser, P.Allows;
    FetchIff(image.protection.value, image.blocks, s, reg, image.entry);
  }

  /** What the format asks of a protected file's stack and blocks, but for the entry point's permission. */
  predicate StackPlaced(h: Header, es: seq<Entry>) {
    && h.stackSize != 0 && h.stackSize % 4 == 0 && h.stackTop % 4 == 0 && h.stackSize <= h.stackTop <= 0xFFFF_0000
    && forall k :: 0 <= k < |es| ==>
         && es[k].addr + es[k].size <= 0xFFFF_0000
         && (h.stackTop <= es[k].addr || es[k].addr + es[k].size <= h.stackTop - h.stackSize)
  }

  lemma StackOkIff(h: Header, es: seq<Entry>, blocks: seq<Block>)
    requires Describes(es, blocks) && StackPlaced(h, es)
    ensures StackOk(h, es) <==>
              exists k :: 0 <= k < |blocks| && InBlock(blocks[k], h.base + h.entryOffset) && Executable(blocks[k].perm)
  {
    hide Executable;
    if k :| 0 <= k < |blocks| && InBlock(blocks[k], h.base + h.entryOffset) && Executable(blocks[k].perm) {
      assert Holds(es[k], h.base + h.entryOffset) && Executable(es[k].perm);
    }
    if StackOk(h, es) {
      var k :| 0 <= k < |es| && Holds(es[k], h.base + h.entryOffset) && Executable(es[k].perm);
      assert InBlock(blocks[k], h.base + h.entryOffset) && Executable(blocks[k].perm);
    }
  }

  /** A protected file that meets all other conditions is accepted exactly if the regions of its stack and
      blocks, once loaded, let user code fetch at its entry. */
  lemma AcceptedIffFetchable(d: seq<Byte>, s: P.System, reg: Regs)
    requires |d| >= HEADER_SIZE && d[..4] == Magic()
    requires var h := HeaderOf(d);
             && Protected(h) && HeaderOk(h, |d|) && ReservedClear(d, h)
             && var es := Entries(d, h);
                EntriesOk(h, es) && DebugOk(h) && PairwiseApart(Spans(h, es)) && EntryPointOk(h, es) && StackPlaced(h, es)
    requires T.Shaped(s.vm) && forall i :: 0 <= i < P.REGIONS ==> GrantsNothing(s.regions[i])
    ensures var h := HeaderOf(d);
            var es, p := Entries(d, h), Protection(h.stackTop, h.stackSize);
            && (forall j :: 0 <= j < |es| ==> es[j].offset + es[j].size <= |d|)
            && var rs := UserRegions(p, BlocksOf(d, es));
               && |rs| <= P.REGIONS && (forall i :: 0 <= i < |rs| ==> rs[i].start < LIMIT && rs[i].end < LIMIT)
               && (WellFormed(d) <==> P.Allows(ForUser(s, reg, rs), h.base + h.entryOffset, 1, Fetch))
  {
    hide BlocksOf, Entries, HeaderOf, EntriesOk, StackOk, ReservedClear, DebugOk, Spans, Describes, StackPlaced,
      UserRegions, GrantsNothing, ForUser, P.Allows;
    var h := HeaderOf(d);
    var es, p := Entries(d, h), Protection(h.stackTop, h.stackSize);
    EntriesInFile(h, es);
    BlocksDescribed(d, es);
    StackOkIff(h, es, BlocksOf(d, es));
    PlacedBlocks(h, es, BlocksOf(d, es));
    FetchIff(p, BlocksOf(d, es), s, reg, h.base + h.entryOffset);
  }

  lemma PlacedBlocks(h: Header, es: seq<Entry>, blocks: seq<Block>)
    requires Describes(es, blocks) && StackPlaced(h, es)
    ensures h.stackSize <= h.stackTop <= CPU_RESERVED
    ensures forall k :: 0 <= k < |blocks| ==> blocks[k].addr + |blocks[k].data| <= CPU_RESERVED
  {
  }
}
