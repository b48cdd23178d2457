# CPT32 verification model

CPT32 emulates the SRC32 CPU and its machine. It runs the same machine in several fast forms that
must agree with a slow reference form, and it keeps disk changes in a crash-tolerant log. This
project models those parts in Dafny and proves what they promise each other.

`dafny verify dfyconfig.toml` checks everything. Each file is one module.

| part | modules | main results |
|---|---|---|
| instruction set, as the scalar CPU runs it | `Isa`, `IsaLaws`, `Arith`, `ArithLaws` | the reference for the next parts; `CallReturns`, `DivisionTruncates`, `ProductHalves`, `ShiftBits` |
| five-stage pipeline | `Pipeline`, `PipelineDatapath`, `PipelineProof`, `PipelineTheorems`, `PipelineProgress`, `PipelineHalt`, `PipelineCount`, `PipelineTiming`, `PipelineCpu` | `PipelineRefinesScalar`, `PipelineIsOnTime`, `BusTrafficIsProgramOrder`, `EventuallyRetires`, `HaltResumesInModeIff` |
| pipeline with the translation buffer | `PagedPlatform`, `PagedScalar`, `PagedPipeline`, `PagedDivergence`, `PagedMemory` | `PagedPipelineRefinesScalar`, `CpusDiffer`, `PagedLoadAfterStore` |
| block compiler | `JitIr`, `JitEmit`, `JitBatch`, `JitCpu`, `JitStamps` | `EmitIsExact`, `BatchIsSteps`, `RunNativeIdleBatch`, `StampsDischarge` |
| device time on the bus | `BusClock`, `SystemBus`, `BusRelaxed`, `BusQuiet`, `BusLaws` | `AdvanceSystemCycles`, `RelaxedFollowsStrict`, `QuietIsTicks`, `CycleIs` |
| cached interpreter | `CachedCpu`, `CachedRefines` | `CacheIsInvisible`, `ClockPerforms`, `CachedIsExact` |
| spin-loop fast-forward | `SpinSkip`, `SpinCpu`, `SpinLoop` | `RunInner`, `SkipSpin`, `LoopIsDeterministic` |
| decode cache and block stamps | `CodeMemory`, `DecodeCache`, `DecodeHits`, `BatchStamps` | `FetchIsCurrent`, `FetchedHits`, `StampedBlockIsCurrent` |
| TLB, page tables | `Tlb`, `TlbUnit`, `PageTables` | `HistoryKeepsConsistent`, `CrossingPhysicalIff`, `AcceptedIffAllowed` |
| traps, register banks, user mode | `Privilege`, `PrivilegeUnit`, `SystemRegisters`, `UserMode` | `RunRefinesBanks`, `UserRunIsConfined`, `WrittenIsRead`, `SystemIsWired` |
| copy-on-write overlay | `Bytes`, `CowLog`, `CowScan`, `CowScanner`, `CowState`, `CowTheorems`, `CowBlocks`, `CowFile` | `ScanFindsLog`, `ScannedIsLog`, `CrashIsAtomic`, `SessionsFollowReference`, `WrittenIsRead` |
| WAX container | `WaxFormat`, `WaxSpans`, `WaxParser`, `WaxPacker`, `WaxRegions`, `WaxLayout` | `Parse`, `LoadBytes`, `UserTouchesOnlyItsImage`, `AcceptedIffFetchable`, `ParseUndoesPack` |
| L1 tags, audio ring | `L1Tags`, `L1Cache`, `AudioRing` | `HitsIffLive`, `ExternalWrite`, `OnlyOldestLost` |

`Simulation` holds what whole runs have in common, `Numbers` division with remainder, `Wrappers` the
option and result types.

## How the model is built

- Code that changes state in place is a class whose methods change the same fields, with the loops of
  the source: `Cpu`, `CowOverlay`, `JitCpu`, `Bus`, `SpinCpu`, `InstructionCache`, `TranslationUnit`,
  `SystemUnit`, `BankUnit`, `Cache`, `AudioRingBuffer`, and the scanners, parsers and loaders. Each
  method is proved equal to a function on values, and the theorems are about those functions.
- The pipeline and the block compiler are proved for every `Isa.Platform`: bus, program and privilege
  unit are its fields. There a check of an access answers and changes nothing. `Isa.Wired` says what is
  relied on; `PrivilegeUnit.SystemIsWired` and `PagedPlatform.TablesAreWired` prove it for the modelled
  unit, with translation straight from the page tables.
- The real unit translates through a buffer that checks fill, and the pipeline's checks, of fetches that
  run ahead and down wrong paths, fill it in another order than the scalar CPU's. `PagedPipeline` and
  `PagedScalar` model both CPUs with their own buffers. `PagedPipelineRefinesScalar` is the refinement
  for all runs in which no access of either CPU loses a page; accesses inside one page never do
  (`PagedPlatform.AlignedKeeps`), and for one access `KeptBytes` and `LostByte` show that this is exactly
  when the buffer and the tables give the same address.
- Devices are abstract. `BusClock.Contract`, `BusRelaxed.Trusted` and `BusQuiet.Trusted` say what
  `src/bus.rs` relies on: time is additive, a level changes at its announced deadline only, an event
  asks for a strictly later one, a disk that announces idle cycles does nothing in them.
- `SpinSkip.Deterministic` is what fast-forwarding relies on. It is not only assumed:
  `SpinLoop.LoopIsDeterministic` proves it for the run loop on that bus, for every CPU whose cycle is
  a function of its core, its memory and what side-effect-free reads can see, and
  `CachedCpu.CachedIsExact` proves that the clock of the cached interpreter is such a CPU.
- `RunNativeIdleBatch` asks that counted hits are the instructions in memory and that unchanged code
  units mean an unchanged block. `JitStamps.StampsDischarge` proves both from the decode cache and the
  block stamps, on every history of writes.
- What a fast form and its reference share (decoding of table words, arithmetic, privilege, block and file
  layouts, line and slot numbers, deadlines) could be wrong in both at once. So it is stated once more
  without those definitions, in plain numbers and bits, and proved: `IsaLaws`, `ArithLaws`, `PageTables`,
  `SystemRegisters`, `UserMode`, `PagedMemory`, `PipelineTiming`, `CachedRefines`, `DecodeHits`, `BusLaws`,
  `CowBlocks` and `WaxLayout` hold these statements.
- Words are integers below 2^32 with wrap-around written out. CRC32C (section 12.1 of RFC 3720) and
  SHA-256 (section 6.2 of FIPS 180-4) are functions about which nothing is assumed. File operations
  may fail after writing any prefix, and so may each truncation and removal that repairs it.

## What the proofs turned up

- **HALT and the instruction mode.** `src/cpu_pipeline.rs:4-6` promises the mode of the scalar CPU.
  `sync_from_register_block` (lines 474-501) reloads the empty pipeline with the fetch mode, which a
  jump behind the HALT may already have changed (lines 2265-2268). `HaltResumesInModeIff` gives the
  exact condition, the kind of the word behind the HALT, and `HaltThenJmpsSlips` a program of two words.
- **Counting refused accesses.** A load or store refused in MEM (lines 2001-2010) is not counted in
  `instructions_executed`; the scalar CPU counts it. `dataFaults` in `Isa.State` is the difference, and
  `PipelineRefinesScalar` states the counter exactly. `PipelineCount.CountsAgreeIff` says when the
  counters agree, and `RefusedLoadIsUncounted` is a program of one load for which they do not.
- **Page-crossing accesses.** The fill for the second page may take the TLB slot of the first;
  `physical` then reads page 0 for the first bytes (`src/cpu_privilege.rs:598-651`).
  `CrossingPhysicalIff` is the exact condition for the bytes of the first page, `SecondPagePhysical`
  says that those of the second are always right, and `CrossingLosesPage` is a run of 17 reads from a
  flushed buffer that loses a page.
- **Page-crossing accesses and the pipeline.** So the promise of `src/cpu_pipeline.rs:4-6` fails for
  translated user code: the pipeline's fetch checks (lines 2223-2236) take buffer slots that the scalar
  CPU takes later or never. `PagedDivergence.CpusDiffer` is a program of one load across a page after
  which the two CPUs hold different values in R1. `PagedPipelineRefinesScalar` is the promise for all
  runs in which neither CPU loses a page.
- **`external_write` of no bytes** at an unaligned address still drops the line it points into
  (`src/cpu_cache.rs:159-173`): `L1Cache.NothingTouchedIff`. The snoop drops whatever line is in a
  touched slot; `Cache.ExternalWrite` states the tags slot by slot.
- **Stale levels.** `advance_system_cycles` (`src/bus.rs:232-260`) is that many single cycles if an event
  is due or the interrupt levels are up to date when it begins, and it leaves them up to date.
  `BusClock.StaleLevelsDiffer` shows a bus with a stale level on which it is not.
- **HALT jumps** in `run_inner` (`src/cpu.rs:2053-2066`) move time before the interrupt output is
  sampled again. `SpinLoop` keeps this order; it is why fast-forwarding asks for a settled CPU.

## Model

| member | source | states |
|---|---|---|
| `Isa.StepsAdd` | src/cpu.rs:1527-1856 | running the scalar CPU for m and then n instructions is running it for m + n |
| `IsaLaws.LoadConstant` | src/cpu.rs:1572-1581 | LDIL and LDIH, in either order, load any constant into a register and change nothing else |
| `IsaLaws.CpuidSays` | src/cpu.rs:1646-1649 | CPUID puts 0x5352_4332 into R1 and the features into R2 |
| `IsaLaws.BranchesSplit` | src/cpu.rs:1602-1611 | of BEQ and BNE on the same operands one goes on and the other to next PC plus offset |
| `IsaLaws.CallReturns` | src/cpu.rs:1615-1621 | a call and a jump through R31 come back behind the call with R31 as the only change |
| `IsaLaws.IndirectCall` | src/cpu.rs:1635-1645 | a call through a register reads its target before it writes R31, and may enter Short mode |
| `IsaLaws.ShortCallReturns` | src/cpu.rs:1626-1630 | a call into Short mode returns through its register 15, which is R31, and S.RET resumes Normal mode |
| `IsaLaws.StoreNarrows` | src/cpu.rs:1762-1771 | a store hands the bus the low 8, 16 or 32 bits of its register, at base plus offset modulo 2^32 |
| `IsaLaws.ZeroStaysZero` | src/cpu.rs:1103-1130 | R0 is zero after every run |
| `IsaLaws.OnlyItsRegisters` | src/cpu.rs:1527-1856 | an instruction writes no register but its destination and, through the privilege unit, R28 to R30 |
| `PipelineDatapath.WriteBackIsSetReg` | src/cpu_pipeline.rs:1832-1848 | register write-back at commit, including CPUID and the R0 repair, is the scalar CPU's register update |
| `PipelineDatapath.NormalDatapath` | src/cpu_pipeline.rs:1296-1622 | for every Normal-mode instruction and state, decode, EX and commit together have the effect of `execute_normal` |
| `PipelineDatapath.ShortDatapath` | src/cpu_pipeline.rs:1296-1622 | the same for every Short-mode instruction against `execute_short` |
| `PipelineDatapath.DatapathIsStep` | src/cpu_pipeline.rs:1053-1250 | for every state, what EX computes leads to the scalar CPU's next state: trap, MTSR, IRET, HALT, access, branch or plain result |
| `PipelineDatapath.HazardSourcesMatchDecode` | src/cpu_pipeline.rs:1649-1704 | the hazard unit looks at exactly the registers that decode reads, both directions, for every instruction of both modes |
| `PipelineProof.FrontBusy` | src/cpu_pipeline.rs:2103-2108 | behind an executing operation the front end ends up in front of the real successor, whatever was predicted, and a waiting load use is held |
| `PipelineProof.FrontFollows` | src/cpu_pipeline.rs:2173-2207 | without a redirect the fetched instruction moves into ID/EX or waits for a load, and nothing is lost or repeated |
| `PipelineProof.FrontRedirected` | src/cpu_pipeline.rs:2265-2276 | a redirect empties the front end and restarts it at the target and mode |
| `PipelineProof.PredictionTarget` | src/cpu_pipeline.rs:2188-2207 | a predicted branch that is taken goes exactly where the predictor steered the fetch |
| `PipelineProof.ForwardingIsCurrent` | src/cpu_pipeline.rs:1252-1292 | forwarding delivers what the register file will hold after the two older instructions, unless the producer is a load still in EX/MEM |
| `PipelineProof.ExecuteIgnoresRegs` | src/cpu_pipeline.rs:1296-1330 | EX never depends on the not yet committed register file |
| `PipelineProof.CommitPlain` | src/cpu_pipeline.rs:1778-1882 | committing an ordinary instruction makes the architectural state the scalar CPU's next one |
| `PipelineProof.CommitFlush` | src/cpu_pipeline.rs:1778-1882 | committing a trap, MTSR or IRET leaves an empty pipeline in exactly the scalar CPU's next state |
| `PipelineProof.RefusedAccess` | src/cpu_pipeline.rs:1996-2012 | an access that the privilege unit refuses in MEM traps precisely: nothing younger or older is lost |
| `PipelineProof.GrantedAccess` | src/cpu_pipeline.rs:2013-2046 | a granted access does the scalar CPU's access of that instruction and no other |
| `PipelineProof.HoldKeeps` | src/cpu_pipeline.rs:2110-2140 | a multiply or divide hold changes nothing but the countdown |
| `PipelineProof.ExecuteIsCurrent` | src/cpu_pipeline.rs:2142-2168 | with forwarded operands EX computes what the scalar CPU would for the next instruction |
| `PipelineProof.AdvanceBusy` | src/cpu_pipeline.rs:2098-2108 | after EX the front end stands before the scalar CPU's next PC, and no reader of a pending load has slipped into ID/EX |
| `PipelineProof.AdvanceKeeps` | src/cpu_pipeline.rs:2142-2290 | one advance of EX, ID, prediction, IF and redirect keeps the refinement invariant |
| `PipelineProof.DrainKeeps` | src/cpu_pipeline.rs:2059-2096 | the multiply/divide countdown keeps the refinement invariant |
| `PipelineTheorems.CommitHalt` | src/cpu_pipeline.rs:1869-1882 | HALT at commit drops the over-fetched instructions and stands behind the HALT |
| `PipelineTheorems.WorkRefines` | src/cpu_pipeline.rs:1959-2290 | one clock without a cache stall is that many scalar steps as instructions retire |
| `PipelineTheorems.TickRefines` | src/cpu_pipeline.rs:1912-2300 | every clock, with any cache penalty, is that many scalar steps as instructions retire |
| `PipelineTheorems.RunRefines` | src/cpu_pipeline.rs:1912-2300 | so is every run of clocks |
| `PipelineTheorems.PipelineRefinesScalar` | src/cpu_pipeline.rs:4-6 | the file's promise on every platform whose checks change nothing: after any clocks from reset, registers, PC, mode, privilege state and count are the scalar CPU's after exactly the retired instructions; memory is one instruction ahead exactly if MEM/WB holds a plain one |
| `PipelineTheorems.BusTrafficIsProgramOrder` | src/cpu_pipeline.rs:1971-2012 | the recorded data accesses are the scalar CPU's, each once and in program order: no wrong-path access, none behind an uncommitted trap, MTSR or IRET |
| `PipelineProgress.TickApproaches` | src/cpu_pipeline.rs:1934-1941 | each clock works off a cache stall, retires something, or brings the oldest instruction closer to commit |
| `PipelineProgress.EventuallyRetires` | src/cpu_pipeline.rs:1912-2300 | whatever penalties the cache charges, the pipeline retires another instruction or stops |
| `PipelineHalt.SwitchExecutes` | src/cpu_pipeline.rs:2265-2276 | the word behind a HALT moves the fetch mode exactly if it is a jump into Short mode |
| `PipelineHalt.RunShadowed` | src/cpu_pipeline.rs:1912-2300 | over every run it is tracked whether such a jump executes in the shadow of a HALT |
| `PipelineHalt.HaltResumesInModeIff` | src/cpu_pipeline.rs:474-501 | once stopped, the CPU keeps the scalar CPU's mode if and only if the word behind the HALT is not a jump into Short mode |
| `PipelineHalt.HaltThenJmpsSlips` | src/cpu_pipeline.rs:474-501 | a concrete program of two words for which it slips into Short mode |
| `PipelineTiming.DrainsIs` | src/cpu_pipeline.rs:1296-1330 | an instruction empties the pipeline exactly if it may not be fetched, is SYSCALL, MTSR, IRET, HALT or illegal, or traps as privileged or refused |
| `PipelineTiming.SteersIs` | src/cpu_pipeline.rs:2142-2168 | EX redirects the front end exactly for jumps and for conditional branches that are taken forward or not taken backward |
| `PipelineTiming.WaitsIs` | src/cpu_pipeline.rs:1636-1704 | the next instruction is held back exactly if it needs the register, not R0, that a load is about to fetch |
| `PipelineTiming.DrainAhead` | src/cpu_pipeline.rs:2059-2140 | each clock brings the oldest instruction exactly one clock nearer to retirement; a multiply stays 3 clocks in EX, a division 16 |
| `PipelineTiming.DrainSpaced` | src/cpu_pipeline.rs:2059-2290 | behind a redirect, a load and its reader, or a plain instruction, the stages are filled as far as the instructions say and no further |
| `PipelineTiming.WorkOnTime` | src/cpu_pipeline.rs:1959-2300 | one clock against the costs, with none, one or two instructions retired |
| `PipelineTiming.OnSchedule` | src/cpu_pipeline.rs:1912-2300 | from any moment of a run on, the k-th instruction has retired if and only if more clocks of work have passed than it takes |
| `PipelineTiming.PipelineIsOnTime` | src/cpu_pipeline.rs:1624-1647 | cycle-exact timing of every program: instruction k has retired if and only if RetireClock clocks of work have passed, a sum over the instructions of 1, 3 or 16 clocks in EX, one behind a load for its reader, two behind a steered fetch and four behind a drained pipeline |
| `PipelineTiming.ClocksAccounted` | src/cpu_pipeline.rs:1934-1941 | all other clocks of a running CPU are exactly the cache penalties charged |
| `PipelineTiming.TimingWithoutPenalties` | src/cpu_pipeline.rs:1912-2300 | so without penalties the number of clocks since reset alone tells which instructions have retired |
| `PipelineCpu.Cpu.RedirectEmpty` | src/cpu_pipeline.rs:1748-1761 | updates the CPU's fields to the specification's state: as the specification of a flush |
| `PipelineCpu.Cpu.EnterException` | src/cpu_pipeline.rs:1763-1776 | updates the CPU's fields to the specification's state: as the specification of trap entry |
| `PipelineCpu.Cpu.CommitMemWb` | src/cpu_pipeline.rs:1778-1882 | the imperative commit has exactly the effect of the specified one |
| `PipelineCpu.Cpu.CommitMtsr` | src/cpu_pipeline.rs:1816-1825 | updates the CPU's fields to the specification's state: MTSR at commit |
| `PipelineCpu.Cpu.CommitIret` | src/cpu_pipeline.rs:1853-1868 | updates the CPU's fields to the specification's state: IRET at commit |
| `PipelineCpu.Cpu.CommitHalt` | src/cpu_pipeline.rs:1869-1880 | updates the CPU's fields to the specification's state: HALT at commit |
| `PipelineCpu.Cpu.Retire` | src/cpu_pipeline.rs:1826-1852 | updates the CPU's fields to the specification's state: PC, register and mode updates of a plain instruction |
| `PipelineCpu.Cpu.Advance` | src/cpu_pipeline.rs:2142-2290 | updates the CPU's fields to the specification's state: EX to redirect of one clock |
| `PipelineCpu.Cpu.FrontEnd` | src/cpu_pipeline.rs:2173-2290 | updates the CPU's fields to the specification's state: ID, prediction, IF and redirect |
| `PipelineCpu.Cpu.Predict` | src/cpu_pipeline.rs:2188-2207 | updates the CPU's fields to the specification's state: the static predictor |
| `PipelineCpu.Cpu.Drain` | src/cpu_pipeline.rs:2059-2140 | updates the CPU's fields to the specification's state: the multiply/divide countdown |
| `PipelineCpu.Cpu.Tick` | src/cpu_pipeline.rs:1912-2300 | updates the CPU's fields to the specification's state: one clock |
| `PipelineCpu.Cpu.Work` | src/cpu_pipeline.rs:1959-2300 | updates the CPU's fields to the specification's state: a clock that is not stalled |
| `PipelineCpu.Cpu.RunFor` | src/cpu_pipeline.rs:1912-2300 | updates the CPU's fields to the specification's state: any run of clocks, to which the theorems apply |
| `PipelineCount.RefusedIsUncounted` | src/cpu_pipeline.rs:2001-2010 | a clock that refuses an access in MEM retires it uncounted, while the scalar CPU counts it |
| `PipelineCount.CountsAgreeIff` | src/cpu_pipeline.rs:1778-1790 | after any run the two instruction counters agree if and only if no access has been refused |
| `PipelineCount.RefusedLoadIsUncounted` | src/cpu_pipeline.rs:2001-2010 | a concrete user program whose first load is refused: after four clocks both CPUs are at the handler, one with count 0 and one with 1 |
| `PagedPlatform.TablesAreWired` | src/cpu_privilege.rs:579-689 | with translation straight from readable page tables the unit keeps every promise the CPUs rely on |
| `PagedPlatform.AlignedKeeps` | src/cpu_privilege.rs:598-651 | an aligned access of 1, 2 or 4 bytes never loses a page |
| `PagedPlatform.CheckedIsAnswer` | src/cpu_privilege.rs:579-631 | a check through the buffer answers as the tables do and leaves a consistent buffer |
| `PagedPlatform.KeptBytes` | src/cpu_privilege.rs:642-651 | after an accepted access that keeps its pages every byte is where the tables say |
| `PagedPlatform.LostByte` | src/cpu_privilege.rs:642-651 | after one that does not, its first byte is not: the condition is exact |
| `PagedPlatform.KeptData` | src/cpu_privilege.rs:654-676 | loads and stores through the buffer then do what they would do straight from the tables |
| `PagedPlatform.KeptFetch` | src/cpu_privilege.rs:654-662 | and a fetch reads the same instruction |
| `PagedPlatform.WrittenIsOk` | src/cpu_privilege.rs:461-495 | MTSR leaves a buffer that belongs to the new table root |
| `PagedScalar.PagedStepIsStep` | src/cpu.rs:1527-1856 | a scalar instruction that fetches and accesses through the buffer without losing a page is the instruction straight from the tables |
| `PagedScalar.PagedStepsAreSteps` | src/cpu.rs:1527-1856 | so is every run of instructions, and the buffer stays consistent |
| `PagedPipeline.SameMemory` | src/cpu_pipeline.rs:1996-2290 | behind commit, a clock depends on the surroundings only through the one data access in MEM and the one fetch in IF |
| `PagedPipeline.PagedTickIsTick` | src/cpu_pipeline.rs:1912-2300 | a clock that checks its access and then its fetch through one buffer, on the wrong path too, without losing a page, is the clock straight from the tables |
| `PagedPipeline.PagedRunIsRun` | src/cpu_pipeline.rs:1912-2300 | so is every run of clocks |
| `PagedPipeline.PagedPipelineRefinesScalar` | src/cpu_pipeline.rs:4-6 | the refinement with two buffers filled in different orders, for all runs in which no access of either CPU loses a page: registers, PC, mode, privilege state, count and memory |
| `PagedDivergence.ScalarLoses` | src/cpu_privilege.rs:642-662 | from a buffer that 16 reads have filled, the scalar CPU's load across a page takes its first bytes from page 0 |
| `PagedDivergence.PipelineFinds` | src/cpu_pipeline.rs:2223-2236 | from the same buffer the pipeline's load is right: the fetch of the next code page has already taken the slot |
| `PagedDivergence.CpusDiffer` | src/cpu_pipeline.rs:4-6 | so the promise fails without the premise: same program, memory, tables and reachable buffer, one instruction later the same PC and count but another R1 |
| `PagedMemory.StoreLeaves` | src/cpu_privilege.rs:665-676 | a store leaves the digits of its value, most significant first, where the tables map its bytes, and changes no other byte |
| `PagedMemory.LoadFinds` | src/cpu_privilege.rs:654-662 | a load puts the bytes at its places together, most significant first |
| `PagedMemory.PagedLoadAfterStore` | src/cpu_privilege.rs:654-676 | on plain memory, whatever the page tables, a load of 1, 2 or 4 bytes finds what a store to that address left, also across pages |
| `CowLog.HeaderExact` | src/cow.rs:117-129 | the header checks accept a 64-byte header if and only if it is the one `make_header` makes for these parameters |
| `CowLog.CheckAcceptsRecord` | src/cow.rs:422-436 | a record as `write_block` lays it out passes the scanner's checks |
| `CowLog.CheckedIsRecord` | src/cow.rs:185-249 | and whatever passes them is byte for byte such a record of a valid write |
| `CowScan.IndexPointsAtLatest` | src/cow.rs:217-239 | the index has an entry for exactly the written blocks and points at their latest data |
| `CowScan.RecordsAreRecognised` | src/cow.rs:185-249 | records and checks are inverse to each other for all parameters |
| `CowScan.ScanFindsLog` | src/cow.rs:461-561 | a log with any torn tail scans to its record count, index and valid end |
| `CowScan.ScannedIsLog` | src/cow.rs:461-561 | whatever scans is a log with a torn tail, and the scan describes that log |
| `CowScanner.CheckAt` | src/cow.rs:185-235 | the checks one after the other are the record check |
| `CowScanner.ScanRecords` | src/cow.rs:180-249 | the record loop is the specified scan |
| `CowScanner.ScanCowFromFile` | src/cow.rs:461-561 | `scan_cow_from_file` returns the specified scan, errors included |
| `CowScanner.ScanCow` | src/cow.rs:142-249 | `scan_cow` accepts the same files with the same index, and tells a foreign base apart in the same cases |
| `CowState.WriteChangesOneBlock` | src/cow.rs:364-371 | an accepted write changes exactly the bytes of its block in the logical image |
| `CowState.OpenTracks` | src/cow.rs:278-324 | an opened overlay stands for the log in its file |
| `CowState.AppendTracks` | src/cow.rs:422-457 | an append, failing after any prefix and with any rollback, commits its block or nothing |
| `CowState.CreateTracks` | src/cow.rs:383-410 | creating the file lazily commits nothing |
| `CowState.CutTracks` | src/cow.rs:412-420 | discarding a torn tail commits nothing |
| `CowState.WriteTracks` | src/cow.rs:364-458 | a write that reports success commits exactly its block, one that fails commits nothing, and a poisoned overlay never touches its file again |
| `CowTheorems.ReopenTorn` | src/cow.rs:461-561 | a log with n bytes of the next record reopens to the old writes, or to the new ones exactly if all bytes are there |
| `CowTheorems.ReopenLog` | src/cow.rs:278-324 | a log with a torn tail reopens to its writes and knows about the tail |
| `CowTheorems.CrashIsAtomic` | src/cow.rs:364-458 | whatever moment of a write a crash hits, the file reopens to exactly the old or exactly the new image |
| `CowTheorems.RecoveryContinues` | src/cow.rs:412-457 | after any recovery a write discards the torn tail and continues the sequence: the file is exactly the log with one more record |
| `CowTheorems.ReadsAreImage` | src/cow.rs:334-362 | every byte read is the byte of the block map over the base image |
| `CowTheorems.SessionStep` | src/cow.rs:278-458 | one operation of a session is one step of the reference |
| `CowTheorems.ReopenStep` | src/cow.rs:278-324 | reopening keeps the committed writes; only after a failed rollback may it add the one pending write |
| `CowTheorems.SessionsFollowReference` | src/cow.rs:278-458 | over every sequence of writes and reopenings, with I/O failing anywhere, the overlay follows the reference and reads its image |
| `CowBlocks.BlocksCover` | src/cow.rs:373-381 | a block exists if and only if it begins inside the image, so every byte has one and the last one holds a byte |
| `CowBlocks.OpensNew` | src/cow.rs:98-115 | a new overlay opens on exactly the devices, non-empty base images and block sizes the format allows |
| `CowBlocks.WrittenIsRead` | src/cow.rs:334-458 | on any usable overlay with room, a write whose I/O works succeeds if and only if it is one full block that begins inside the image; then its bytes read as written and all others as before |
| `CowBlocks.HeaderBytes` | src/cow.rs:117-129 | where each field of the file header stands, least significant byte first |
| `CowBlocks.RecordBytes` | src/cow.rs:422-436 | where each field of a record stands, and what its two checksums cover |
| `CowBlocks.RecordPlace` | src/cow.rs:438-457 | record k stands at 64 + k * (32 + block size) and has sequence number k + 1 |
| `CowFile.CowOverlay.OpenPath` | src/cow.rs:278-324 | opens exactly the files the specification opens, with its state or its error |
| `CowFile.CowOverlay.EnsureFile` | src/cow.rs:383-410 | creates the file on the first write, failing at any step |
| `CowFile.CowOverlay.DiscardTail` | src/cow.rs:412-420 | truncates a torn tail |
| `CowFile.CowOverlay.AppendRecord` | src/cow.rs:422-457 | appends, rolls back or poisons |
| `CowFile.CowOverlay.WriteBlock` | src/cow.rs:364-458 | state and result of the specified write for every fault |
| `CowFile.CowOverlay.ReadChunk` | src/cow.rs:341-361 | one chunk of a read |
| `CowFile.CowOverlay.ReadAt` | src/cow.rs:334-362 | fills the buffer with exactly the bytes the overlay stands for, or reports an error |
| `CowFile.BytesAreImage` | src/cow.rs:334-362 | what `read_at` returns is a slice of the logical image, whatever has been written |
| `Arith.BitsFit` | src/cpu_jit.rs:930-934 | bitwise or and exclusive or of words lose nothing to the word size |
| `Arith.MasksMerge` | src/cpu_jit.rs:976-994 | the masks LDIL and LDIH are compiled to merge the halves of a word |
| `Arith.ShiftMask` | src/cpu_jit.rs:944-953 | masking with 31 is the shift distance modulo 32 |
| `Arith.SafeDivisor` | src/cpu_jit.rs:1037-1064 | dividing by 1 instead of the two trapping divisors gives the interpreter's special results |
| `ArithLaws.SignedIsTwosComplement` | src/cpu.rs:1597-1601 | the signed value of a word is the one number from -2^31 to 2^31 - 1 that is congruent to it |
| `ArithLaws.SubUndoesAdd` | src/cpu.rs:1582-1596 | addition and subtraction undo each other modulo 2^32 |
| `ArithLaws.ProductHalves` | src/cpu.rs:1712-1745 | MUL and MULH are the low and high half of the signed 64-bit product |
| `ArithLaws.DivisionTruncates` | src/cpu.rs:1717-1740 | DIV times divisor plus MOD is the dividend, and MOD is smaller than the divisor with the sign of the dividend, or 0 |
| `ArithLaws.SpecialQuotients` | src/cpu.rs:1717-1750 | division by 0 gives 0, -2^31 by -1 gives -2^31 and remainder 0, and DIVU is the whole quotient |
| `ArithLaws.LogicBits` | src/cpu.rs:1672-1689 | AND, OR and XOR work bit by bit |
| `ArithLaws.ShiftBits` | src/cpu.rs:1690-1706 | shifts move every bit by the low five bits of the distance; SRA fills with the sign |
| `JitIr.DivisionIsSafe` | src/cpu_jit.rs:1037-1064 | the emitted division never traps and has the interpreter's value for every dividend and divisor |
| `JitIr.AluIsExact` | src/cpu_jit.rs:911-1033 | every arithmetic expression has the value the interpreter computes |
| `JitEmit.RunJumpReg` | src/cpu_jit.rs:1017-1023 | an indirect jump reads its target before the link register is written |
| `JitEmit.EmitIsExact` | src/cpu_jit.rs:911-1033 | for every supported instruction without an access the code never traps and leaves the interpreter's registers and PC |
| `JitEmit.WhatIsCompiled` | src/cpu_jit.rs:380-461 | compiled is all but privileged and illegal instructions, SYSCALL and jumps into Short mode; blocks end at branches and jumps |
| `JitBatch.InlineStep` | src/cpu_jit.rs:1267-1280 | an inline part is one interpreter step |
| `JitBatch.HelperStep` | src/cpu_jit.rs:818-867 | the memory helper does one interpreter step or, exactly for an access that is not insensitive, none; it hands over exactly the cycles up to and including it, and stops the batch exactly if the access disturbs it |
| `JitBatch.CodeStaysCurrent` | src/cpu_jit.rs:845-867 | if the helper lets a batch go on, the rest of the block is still what memory holds |
| `JitBatch.OnePart` | src/cpu_jit.rs:1194-1292 | each part goes on with the next one or finishes the batch |
| `JitBatch.BatchIsSteps` | src/cpu_jit.rs:1194-1292 | a batch of any count ends in the state of exactly that many steps, or right before the first access that is not insensitive, or right after the first that changes the interrupt request or stores into its code; it never traps and never hands over more time than those steps take |
| `JitCpu.Preview` | src/cpu_jit.rs:463-483 | the longest run of supported, readable instructions up to the first branch |
| `JitCpu.CompileBatch` | src/cpu_jit.rs:1194-1292 | the parts, with running cycle sums, that the block specifies |
| `JitCpu.Prefix` | src/cpu_jit.rs:596-610 | the longest prefix whose cycles fit the limit |
| `JitCpu.IdleRoomIs` | src/bus.rs:469-486 | as many cycles may be deferred as leave one of the window |
| `CachedRefines.BatchCostsClocks` | src/cpu_jit.rs:433-446 | a native batch is charged what the interpreter takes for its instructions |
| `JitCpu.RunBatch` | src/cpu_jit.rs:656-686 | the accounting behind the call: total cycles are those of the executed instructions, with no underflow |
| `JitCpu.JitCpu.ChoosePrefix` | src/cpu_jit.rs:596-622 | the longest prefix that fits both budget and idle window; the devices are caught up first exactly if outside a chain less than two cycles fit |
| `JitCpu.JitCpu.RunNativeIdleBatch` | src/cpu_jit.rs:585-692 | it runs exactly if the block begins here, no interrupt waits, the longest prefix that fits budget and window is worth two cycles and is all current hits; then it is n interpreter steps on, all of the prefix unless an access stops it, charged exactly their cycles, inside the window |
| `JitStamps.PassingStampIsOk` | src/cpu_jit.rs:636-647 | a stamp that passes its check after any history is as good as one just taken |
| `JitStamps.CountHits` | src/cpu_jit.rs:636-660 | with or without a passing stamp, dispatch counts the leading current hits up to the limit; a passing stamp is kept, and any stamp kept is good |
| `JitStamps.KeptIsAllHits` | src/cpu_jit.rs:844-852 | if the units of a good stamp are unchanged after any writes, the whole block is still hits |
| `JitStamps.StampsDischarge` | src/cpu_jit.rs:630-663 | on every history of writes both assumptions of `RunNativeIdleBatch` follow: counted hits are the instructions in memory, and kept code units mean a kept block |
| `BusClock.Deliver` | src/bus.rs:292-311 | delivering events and levels settles the bus, and delivering again changes nothing |
| `BusClock.JumpIsTicks` | src/bus.rs:232-260 | a jump to the next deadline is that many single cycles |
| `BusClock.BeginTicks` | src/bus.rs:232-237 | what begins a call is the same for one cycle and for many |
| `BusClock.StoppedClock` | src/bus.rs:233-234 | with the 64-bit clock at its end further cycles change nothing |
| `BusClock.StaleLevelsDiffer` | src/bus.rs:232-260 | a timer and a bus with a stale level for which two cycles at once lose a request that two single cycles latch |
| `BusClock.RoundIsTicks` | src/bus.rs:238-259 | one round of the loop is that many cycles and ends settled |
| `SystemBus.Bus.RefreshDeviceIrqs` | src/bus.rs:701-735 | latches exactly the rising edges of all sources |
| `SystemBus.Bus.RunDueExpansionEvents` | src/bus.rs:292-311 | runs exactly the due cards and says whether there were any |
| `SystemBus.Bus.NextExpansionEventCycle` | src/bus.rs:281-290 | the earliest deadline of any card |
| `SystemBus.Bus.NextStop` | src/bus.rs:241-252 | the next cycle at which anything may happen, strictly later and not beyond the target |
| `SystemBus.Bus.BeginAdvance` | src/bus.rs:232-237 | events already due |
| `SystemBus.Bus.AdvanceRound` | src/bus.rs:253-258 | one round |
| `SystemBus.Bus.AdvanceToNextStop` | src/bus.rs:238-259 | one round moves the clock and keeps it equal to single cycles |
| `SystemBus.Bus.AdvanceTo` | src/bus.rs:238-259 | the loop ends at the target in the state of that many single cycles |
| `SystemBus.Bus.AdvanceSystemCycles` | src/bus.rs:232-260 | n cycles at once are n calls with one cycle: same clock, events, event cycles and interrupt requests, for every n, if an event is due or the levels are up to date when it begins; afterwards they are |
| `SystemBus.Bus.NativeIdleBudget` | src/bus.rs:469-486 | the cycles that may be deferred |
| `SystemBus.Bus.DeferNativeIdleCycles` | src/bus.rs:489-498 | defers them |
| `SystemBus.Bus.FlushRelaxedDevices` | src/bus.rs:505-514 | catches up in one step |
| `SystemBus.Bus.TickRelaxedDevices` | src/bus.rs:442-464 | one relaxed cycle |
| `BusRelaxed.IdleTicks` | src/bus.rs:524-545 | before the timer's deadline idle cycles move clocks and nothing else, also when the clock saturates |
| `BusRelaxed.LagIsInvisible` | src/bus.rs:440-464 | fewer than 256 cycles are owed, none is lost or counted twice, and interrupt requests are those of strict ticking |
| `BusRelaxed.FlushCatchesUp` | src/bus.rs:505-514 | a flush leaves exactly the strictly ticked devices |
| `BusRelaxed.StepKeepsLag` | src/bus.rs:442-498 | every tick, deferral within the budget, access or flush keeps this |
| `BusRelaxed.RelaxedFollowsStrict` | src/bus.rs:442-514 | so does every run of them, and a final flush gives the strictly ticked devices |
| `BusQuiet.IdleIsUnseen` | src/bus.rs:519-545 | quiet cycles cannot be seen by reads or at the interrupt output, and shorten the window by no more than themselves |
| `BusQuiet.IdleIsTicks` | src/bus.rs:396-415 | passing quiet cycles at once is that many ticks of every device |
| `BusQuiet.QuietIsTicks` | src/bus.rs:546-555 | `advance_quiet_cycles` is owed plus new cycles of ticking, as its comment promises |
| `BusLaws.RefreshLatches` | src/bus.rs:701-735 | source by source: a driven line that has gone high is pending and stays so, and other sources are left alone |
| `BusLaws.CycleIs` | src/bus.rs:232-260 | one cycle of a bus with nothing due: clock and timer advance by one, every card whose deadline is the new cycle runs once, and then the lines are latched |
| `BusLaws.LimitIs` | src/bus.rs:442-464 | a deferred stretch ends with the timer's interrupt and after 256 cycles |
| `BusLaws.BudgetIsAll` | src/bus.rs:469-498 | after exactly the budget the next tick catches the devices up, after less it does not |
| `BusLaws.WindowIs` | src/bus.rs:524-545 | quiet cycles reach up to the disk's next change and to the cycle before the timer's interrupt, and there are none with a card or a request about |
| `BusLaws.UntilEventIs` | src/bus.rs:268-290 | the next event is the first of the timer's interrupt and the cards' deadlines |
| `BusLaws.QuietIsAll` | src/bus.rs:524-545 | the run loop is told all of the quiet window |
| `BusLaws.HaltedJumps` | src/cpu.rs:2053-2066 | a halted CPU with nothing pending jumps to the first event or the end of its run, and past neither |
| `CodeMemory.GenerationsGrow` | src/devices/ram.rs:31-50 | a page's generation never goes back and moves whenever a byte of it changes |
| `CodeMemory.GenerationsMoveIff` | src/devices/ram.rs:31-42 | a write moves the generation of its 4096-byte page by one if and only if it changes the byte, and no other page's |
| `CodeMemory.RamIsCoherent` | src/devices/ram.rs:42-50 | main memory keeps the generation contract if its size is whole pages |
| `DecodeCache.FillVouches` | src/cpu.rs:1146-1202 | an entry filled while other masters write vouches for memory all the same |
| `DecodeCache.FetchKeepsCoherent` | src/cpu.rs:1146-1187 | fetching keeps the cache coherent |
| `DecodeCache.WritesKeepCoherent` | src/bus.rs:54-64 | so do writes of any master |
| `DecodeCache.HitIsCurrent` | src/cpu.rs:1146-1187 | a hit is the decode of the bytes now in memory |
| `DecodeCache.RunKeepsCoherent` | src/cpu.rs:1146-1202 | over every history of fetches and writes the cache stays coherent |
| `DecodeCache.FetchIsCurrent` | src/cpu.rs:1146-1202 | after every history a fetch returns the decode of the bytes in memory, a hit whatever other masters are about to do; a translated one that of the bytes its mapping finds, and it leaves the cache alone |
| `DecodeCache.InstructionCache.ReadAndDecode` | src/cpu.rs:1189-1202 | reads byte by byte over the bus |
| `DecodeCache.InstructionCache.FetchCachedInstruction` | src/cpu.rs:1146-1187 | cache, memory and instruction are the specified ones, also for translated fetches, which bypass the cache |
| `DecodeCache.InstructionCache.ReadAndDecodeMapped` | src/cpu.rs:1153-1156 | a translated fetch reads byte by byte where the page mapping says |
| `DecodeHits.FetchedHits` | src/cpu.rs:1146-1187 | once fetched, an instruction hits exactly as long as neither of its two generations changes; memory without generations never hits |
| `DecodeHits.FillDisplaces` | src/cpu.rs:1146-1187 | a fetch displaces exactly what was in its own slot, and only if it fills |
| `DecodeHits.SlotsCompete` | src/cpu.rs:1146-1187 | two addresses compete for a slot if and only if their halfwords are a multiple of the slots apart |
| `DecodeHits.FetchesAreCounted` | src/cpu.rs:1146-1187 | every fetch from memory with generations counts as a hit or as a miss with a fill |
| `BatchStamps.RamSpanOk` | src/bus.rs:966-991 | main memory's spans share one generation |
| `BatchStamps.RamSpanIs` | src/bus.rs:966-991 | a span is all of its page that is in main memory |
| `BatchStamps.Generation` | src/cpu_jit.rs:698-747 | the remembered span gives the generation the bus would |
| `BatchStamps.CheckItem` | src/cpu_jit.rs:698-747 | an instruction passes if and only if it is a current hit |
| `BatchStamps.ValidateNativeBatch` | src/cpu_jit.rs:698-747 | counts the leading hits up to the limit and stamps a block if and only if it is all hits and needs at most two lookups of units |
| `BatchStamps.SameFillsSameSlots` | src/cpu.rs:1146-1187 | no cache slot changes without the fill counter |
| `BatchStamps.StampVouches` | src/cpu_jit.rs:66-75 | across every history, if a stamp passes, a full revalidation would find every instruction a current hit |
| `BatchStamps.StampedBlockIsCurrent` | src/cpu_jit.rs:636-655 | so every instruction of the block is the decode of the bytes now in memory |
| `SpinSkip.InWindow` | src/cpu.rs:1963-1990 | a stretch that ends inside its quiet window without effect or fill has stayed in it all along |
| `SpinSkip.StretchIsPure` | src/cpu.rs:1963-1994 | such a stretch from a settled CPU is that many pure cycles |
| `SpinSkip.LoopRepeats` | src/cpu.rs:1998-2010 | k iterations of a pure loop add k times what one adds |
| `SpinSkip.PurePasses` | src/cpu.rs:2016-2071 | pure cycles in the window are passes of the run loop |
| `SpinSkip.RunOffPasses` | src/cpu.rs:2016-2071 | and the run ends where it would have ended |
| `SpinSkip.LoopObserved` | src/cpu.rs:1973-1985 | two equal snapshots in a quiet window bound one iteration of pure cycles |
| `SpinSkip.SkipFromLoop` | src/cpu.rs:1994-2012 | skipping whole iterations does not change where the run ends |
| `SpinCpu.MatchIsLoop` | src/cpu.rs:1973-1990 | the probe's checks are enough to know that loop |
| `SpinCpu.LoopAllowsSkip` | src/cpu.rs:1994-2012 | whole iterations that fit the window are passes of the loop |
| `SpinCpu.WholeIterations` | src/cpu.rs:1994-2002 | as many iterations as fit, and no fewer |
| `SpinCpu.SpinCpu.SkipSpin` | src/cpu.rs:1963-2014 | at a loop head reached backwards it skips if and only if the probe there shows a repetition in a quiet window into which another iteration fits; then as many iterations as fit, to a later state of the same run, and otherwise it changes nothing but the probe |
| `SpinCpu.SpinCpu.SkipIterations` | src/cpu.rs:1994-2013 | the end of it: as many whole iterations as fit, or none exactly if not even one does, with the clock and all counters |
| `SpinCpu.SpinCpu.RunInner` | src/cpu.rs:2016-2071 | with or without skipping, for every machine, state and budget, the run ends in the state of the run that never skips |
| `SpinLoop.CycleStays` | src/cpu.rs:758-803 | a cycle without effects in a quiet window leaves devices one tick on and its lines sampled |
| `SpinLoop.JumpStays` | src/cpu.rs:2053-2066 | a halted CPU's jump leaves the window or cannot be seen |
| `SpinLoop.PassIsPure` | src/cpu.rs:758-803 | a settled CPU's pass of the loop is pure, halts, or leaves the window |
| `SpinLoop.LoopIsDeterministic` | src/cpu.rs:2016-2071 | every CPU whose cycle is a function of core, memory and readable state keeps all promises that skipping relies on, on every bus that keeps its own |
| `CachedCpu.ExecuteCounts` | src/cpu.rs:906-960 | an instruction stops the CPU only as HALT or by a trap that disables interrupts, and its accesses are counted |
| `CachedCpu.CommitKeeps` | src/cpu.rs:865-904 | a commit without effects leaves memory, devices and sampled lines alone, and leaves no interrupt waiting that did not wait before |
| `CachedCpu.FetchKeeps` | src/cpu.rs:1146-1187 | so does a fetch with its issue, whether it hits, fills, or bypasses the cache |
| `CachedCpu.ExecutionKeeps` | src/cpu.rs:804-846 | so does every phase: fetch, refused fetch, stall and commit |
| `CachedCpu.CachedIsExact` | src/cpu.rs:758-904 | the clock of the cached interpreter is a CPU as fast-forwarding needs it |
| `CachedCpu.CachedLoopIsDeterministic` | src/cpu.rs:2016-2071 | so its run loop keeps all promises that skipping relies on, on every bus that keeps its own |
| `CachedRefines.CommitPerforms` | src/cpu.rs:865-945 | a commit is one instruction of the scalar CPU, then the trap of a bus error it met, then the interrupt that waits if the CPU has not stopped |
| `CachedRefines.ClockPerforms` | src/cpu.rs:804-863 | without a cache hit every clock fetches, counts down or performs: a multiply takes 3 clocks, a division 16, as in EX of the pipeline, and anything else 1 |
| `CachedRefines.CycleNeedsNoCache` | src/cpu.rs:1146-1187 | with a good decode cache each clock does what it would do without one, and leaves the cache good |
| `CachedRefines.CacheIsInvisible` | src/cpu.rs:758-846 | over every run, with other masters writing in between, core, memory, device accesses and instruction count are those of a CPU that fetches every instruction from the bus |
| `CachedRefines.EdgeLatches` | src/cpu.rs:1016-1030 | a rising edge of the interrupt line latches a request with its number, and nothing else does |
| `CachedRefines.WakesAtHandler` | src/cpu.rs:878-904 | a halted CPU with a request it may take goes on at that interrupt's vector in Normal mode |
| `Tlb.LookupIsWalk` | src/cpu_privilege.rs:101-106 | a buffered page is what a fresh walk finds |
| `Tlb.FillKeepsConsistent` | src/cpu_privilege.rs:108-111 | filling a missing page keeps pages distinct and fresh |
| `Tlb.FlushIsConsistent` | src/cpu_privilege.rs:89-92 | a flushed buffer is consistent with any tables |
| `Tlb.InvalidateKeepsConsistent` | src/cpu_privilege.rs:94-99 | if the tables changed for one page only and it is invalidated, the buffer is consistent with the new tables |
| `Tlb.CheckIsFresh` | src/cpu_privilege.rs:579-631 | a check answers what it would without a buffer, fault and address included, and keeps it consistent |
| `Tlb.CheckMeans` | src/cpu_privilege.rs:598-631 | it passes if and only if every page up to the last byte's is granted; an access that wraps never passes |
| `Tlb.AcceptedBytes` | src/cpu_privilege.rs:598-631 | every byte of an accepted access is below the reserved range, virtually and physically, in a user page with the needed permission |
| `PageTables.WalkFindsLeaf` | src/cpu_privilege.rs:115-141 | the walk finds exactly the leaf word that the bits of the address select |
| `PageTables.AcceptedIffAllowed` | src/cpu_privilege.rs:579-640 | an access is accepted if and only if every byte of it has a leaf word with bit 4, and bit 1 for a read, 2 for a write or 3 for a fetch, and both the byte and the leaf's page are below the reserved range |
| `PageTables.MappedByLeaf` | src/cpu_privilege.rs:642-651 | its bytes are in the page that bits 31 to 12 of the leaf word name |
| `PageTables.RefusalIsFirst` | src/cpu_privilege.rs:598-631 | a refusal reports the first byte, or the first byte of the second page, whichever is refused first, with the reason that holds there |
| `PageTables.AnswerMeans` | src/cpu_privilege.rs:579-689 | what every check answers, with and without translation, and with which exception |
| `Tlb.SinglePagePhysical` | src/cpu_privilege.rs:642-651 | after an accepted access inside one page `physical` is the tables' answer |
| `Tlb.CrossingPhysicalIff` | src/cpu_privilege.rs:642-651 | for a page-crossing one it is, for the first page, if and only if the second page's fill does not take its slot or it is mapped to page 0 |
| `Tlb.SecondPagePhysical` | src/cpu_privilege.rs:642-651 | for its second page it always is |
| `Tlb.CrossingLosesPage` | src/cpu_privilege.rs:598-651 | a run for which it is not: from a flushed buffer, 16 reads of 16 pages and one across the end of the first |
| `Tlb.HistoryKeepsConsistent` | src/cpu_privilege.rs:474-481 | through every history of checks, flushes, table switches and invalidated edits the buffer holds exactly fresh walks of distinct pages |
| `TlbUnit.TranslationUnit.FlushAll` | src/cpu_privilege.rs:89-92 | buffer and result are the specified ones: flush |
| `TlbUnit.TranslationUnit.InvalidatePage` | src/cpu_privilege.rs:94-99 | buffer and result are the specified ones: invalidate |
| `TlbUnit.TranslationUnit.Find` | src/cpu_privilege.rs:101-106 | the first valid entry of the page |
| `TlbUnit.TranslationUnit.FillSlot` | src/cpu_privilege.rs:108-111 | buffer and result are the specified ones: round-robin fill |
| `TlbUnit.TranslationUnit.CheckOnePage` | src/cpu_privilege.rs:598-629 | buffer and result are the specified ones: one page of a check |
| `TlbUnit.TranslationUnit.CheckAccess` | src/cpu_privilege.rs:579-631 | the page loop gives the specified answer and buffer, and ends for every address and length |
| `Privilege.StepRefinesBanks` | src/cpu_privilege.rs:397-426 | swapping on mode changes refines two banks that stay where they are |
| `Privilege.RunRefinesBanks` | src/cpu_privilege.rs:385-495 | over every sequence of register writes, traps, IRETs and MTSRs |
| `Privilege.UserBitOnlyByTrapOrIret` | src/cpu_privilege.rs:386-426 | without a trap or IRET no sequence changes the U bit |
| `Privilege.IretUndoesTrap` | src/cpu_privilege.rs:405-426 | after a trap, any handler that does not nest, and IRET, the CPU resumes with its PC, mode, interrupt enable and a user program its own R28 to R30 |
| `Privilege.CheckedAccess` | src/cpu_privilege.rs:579-689 | an accepted user access has every byte below the reserved range and granted by a region or a user leaf; a refused one changes nothing but the buffer |
| `Privilege.CheckAnswers` | src/cpu_privilege.rs:579-631 | whether an access is refused does not depend on the buffer |
| `PrivilegeUnit.SystemUnit.SwapBanks` | src/cpu_privilege.rs:397-401 | registers and state are the specified ones: exchanges R28 to R30, element by element |
| `PrivilegeUnit.SystemUnit.EnterTrapNow` | src/cpu_privilege.rs:405-416 | registers and state are the specified ones: trap entry |
| `PrivilegeUnit.SystemUnit.LeaveTrapNow` | src/cpu_privilege.rs:419-426 | registers and state are the specified ones: IRET |
| `PrivilegeUnit.SystemIsWired` | src/cpu_privilege.rs:405-495 | with page tables in readable memory this unit keeps every promise the pipeline and the block compiler rely on |
| `SystemRegisters.WrittenIsRead` | src/cpu_privilege.rs:434-502 | MFSR reads what MTSR wrote, but for the bits that are fixed, and both know exactly the numbered registers |
| `SystemRegisters.OthersKeep` | src/cpu_privilege.rs:461-502 | MTSR changes no other register that MFSR reads |
| `SystemRegisters.UserBankIsUsers` | src/cpu_privilege.rs:428-447 | USP, UFP and UGP name the user's R28 to R30 in either mode |
| `UserMode.CauseTells` | src/cpu_privilege.rs:286-299 | CAUSE tells all exceptions apart, and page faults VFAULT besides |
| `UserMode.CauseFields` | src/cpu_privilege.rs:223-250 | CAUSE has bit 31 set, the kind in bits 23 to 16 and its details below |
| `UserMode.UserStepIsConfined` | src/cpu.rs:1488-1535 | an instruction of user code leaves the privilege state alone and the CPU running, or enters a trap; it enters the privileged-instruction trap, at its own PC, if and only if it is HALT, IRET, MFSR or MTSR |
| `UserMode.UserRunIsConfined` | src/cpu.rs:1527-1856 | however long user code runs, the first instruction that changes the privilege state or stops the CPU traps |
| `UserMode.UserPipelineIsConfined` | src/cpu_pipeline.rs:1296-1330 | the same for the pipeline, whatever its clocks and penalties |
| `UserMode.UserMemoryIsGranted` | src/cpu.rs:1498-1541 | user code that does not trap touches memory only by one access that was allowed |
| `UserMode.SupervisorIsObeyed` | src/cpu.rs:1558-1671 | supervisor code is obeyed: HALT stops, IRET restores what the last trap put away, MFSR and MTSR reach the system registers or are illegal |
| `L1Tags.SameLine` | src/cpu_cache.rs:49-52 | index and tag identify a line, both directions |
| `L1Tags.EnableIsLast` | src/cpu_cache.rs:78-83 | a bank is enabled as it was last switched |
| `L1Tags.HitsIffLive` | src/cpu_cache.rs:59-84 | after any history a lookup hits if and only if the line was accessed and nothing has evicted or cleared it since |
| `L1Tags.Geometry` | src/cpu_cache.rs:49-52 | lines of 32 bytes; two of them compete for a slot if and only if they are a multiple of 256 lines apart |
| `L1Tags.CountersCount` | src/cpu_cache.rs:59-69 | over every history the counters count, modulo 2^32, the accesses to live lines and all others |
| `L1Cache.BankUnit.Lookup` | src/cpu_cache.rs:59-69 | the tag array is the specified one: hit exactly if the line was there, allocated now, counted |
| `L1Cache.BankUnit.Clear` | src/cpu_cache.rs:54-57 | the tag array is the specified one: all lines gone |
| `L1Cache.BankUnit.ClearLine` | src/cpu_cache.rs:71-76 | the tag array is the specified one: one line gone |
| `L1Cache.BankUnit.SwitchTo` | src/cpu_cache.rs:78-83 | the tag array is the specified one: switching clears |
| `L1Cache.Cache.Fetch` | src/cpu_cache.rs:128-137 | only enabled, cacheable fetches reach the bank, and only misses stall |
| `L1Cache.Cache.Load` | src/cpu_cache.rs:140-149 | the same for loads |
| `L1Cache.Cache.Store` | src/cpu_cache.rs:152-156 | a store allocates nothing and drops the instruction line |
| `L1Cache.Cache.ExternalWrite` | src/cpu_cache.rs:159-173 | exactly the slots of the touched lines are emptied in both banks, whatever they held; so neither bank holds a line of the range, and the loop ends for every range |
| `L1Cache.Cache.WriteReg` | src/cpu_cache.rs:191-206 | the control register's enable, clear and counter bits |
| `L1Cache.NothingTouchedIff` | src/cpu_cache.rs:159-173 | a write leaves both banks alone if and only if it has no bytes and starts a line |
| `L1Cache.TouchedIs` | src/cpu_cache.rs:159-173 | the touched slots are those of the lines that begin before the end of the write, from the one with its first byte on |
| `L1Cache.ControlledIs` | src/cpu_cache.rs:191-206 | after a control write lines survive only if the bank stays on or off and is not told to drop them |
| `AudioRing.FreeRoom` | src/audio.rs:65-66 | the room as the source computes it is what is free |
| `AudioRing.QueueIsNewest` | src/audio.rs:74-80 | a buffer that holds the last turn of a stream holds its newest samples in order |
| `AudioRing.AudioRingBuffer.MakeRoom` | src/audio.rs:66-72 | the read position passes exactly the samples that will not fit |
| `AudioRing.AudioRingBuffer.PutFrames` | src/audio.rs:74-80 | frames are stored interleaved behind the queue, also over several turns |
| `AudioRing.AudioRingBuffer.Append` | src/audio.rs:74-81 | what is behind `MakeRoom` |
| `AudioRing.AudioRingBuffer.PushStereo` | src/audio.rs:60-82 | of the queue and the new samples the newest `capacity - 1` stay, for pushes of any length |
| `AudioRing.AudioRingBuffer.Pop` | src/audio.rs:84-94 | the oldest sample |
| `AudioRing.OnlyOldestLost` | src/audio.rs:60-94 | over every run of pushes and pops samples come out in order and only the oldest are lost |
| `AudioRing.FramesAlternate` | src/audio.rs:74-80 | left and right samples alternate, left first, up to the shorter channel, scaled by 1/32768 |
| `WaxFormat.AcceptedIsLoadable` | src/wax.rs:85-263 | every accepted image has disjoint load ranges, an entry point in a block, and a stack that touches neither |
| `WaxFormat.RegionsFit` | src/wax.rs:54-72 | a protected image yields at most 8 disjoint, non-empty regions below the reserved range |
| `WaxFormat.RegionsAreExact` | src/wax.rs:54-72 | they grant an address if and only if it is on the stack or in a block, with that block's permissions |
| `WaxRegions.LoaderWritesRegions` | src/cpu_privilege.rs:461-495 | a loader's MTSRs put the regions into the region registers and change nothing else |
| `WaxRegions.UserTouchesOnlyItsImage` | src/wax.rs:54-72 | after them user code may access a range if and only if every byte is on the image's stack, for data, or in a block with that permission |
| `WaxRegions.EntryIsFetchable` | src/wax.rs:294-300 | after the loader's MTSRs user code may fetch at the entry point of every accepted protected image |
| `WaxRegions.AcceptedIffFetchable` | src/wax.rs:265-302 | a protected file whose other conditions hold is accepted if and only if the regions of its stack and blocks let user code fetch at its entry point |
| `WaxRegions.RegistersSuffice` | src/wax.rs:137-142 | a protected file may have exactly as many blocks as fit the region registers next to the stack |
| `WaxLayout.HeaderBytes` | src/wax.rs:85-155 | which bytes of an accepted file give kind, base, entry, stack, debug section and number of blocks, most significant byte first |
| `WaxLayout.BlockBytes` | src/wax.rs:157-199 | which bytes give address, data and permission of block k |
| `WaxLayout.EntryConditions` | src/wax.rs:162-192 | what is asked of a table entry, in numbers |
| `WaxLayout.PartsApart` | src/wax.rs:220-223 | no byte of an accepted file belongs to two of table, blocks and debug section |
| `WaxSpans.SortedIsSame` | src/wax.rs:220-223 | sorting does not change whether spans are apart |
| `WaxSpans.NeighboursDecide` | src/wax.rs:220-223 | for sorted spans neighbours decide |
| `WaxSpans.SpansApart` | src/wax.rs:220-223 | true if and only if all spans are pairwise apart |
| `WaxParser.CheckHeader` | src/wax.rs:102-155 | accepts if and only if the format's condition holds: the header checks |
| `WaxParser.CheckSizes` | src/wax.rs:129-155 | accepts if and only if the format's condition holds: sizes and offsets |
| `WaxParser.CheckEntry` | src/wax.rs:162-192 | accepts if and only if the format's condition holds: one table entry |
| `WaxParser.ParseTable` | src/wax.rs:157-199 | accepts if and only if the format's condition holds: all entries, in ascending order, and their blocks |
| `WaxParser.CheckDebug` | src/wax.rs:201-219 | accepts if and only if the format's condition holds: the debug section |
| `WaxParser.CheckSpans` | src/wax.rs:220-223 | accepts if and only if the format's condition holds: file spans apart |
| `WaxParser.CheckEntryPoint` | src/wax.rs:225-243 | accepts if and only if the format's condition holds: the entry point lies in a block |
| `WaxParser.CheckProtection` | src/wax.rs:265-302 | accepts if and only if the format's condition holds: `validate_protection` |
| `WaxParser.CheckBody` | src/wax.rs:201-253 | accepts if and only if the format's condition holds: everything behind the header |
| `WaxParser.Parse` | src/wax.rs:85-263 | accepts exactly the well-formed files and returns the image they stand for |
| `WaxParser.WriteBlocks` | src/wax.rs:330-336 | memory becomes the blocks over what was there |
| `WaxParser.LoadBytes` | src/wax.rs:318-336 | a raw file goes to address 0, an unprotected executable's blocks to their addresses, anything else is refused and changes nothing |
| `WaxParser.LoadedIsExact` | src/wax.rs:330-336 | every byte of every block is loaded, and nothing else |
| `WaxPacker.LayoutIsSound` | src/wax.rs:344-373 | payloads are aligned, in order and where the table says |
| `WaxPacker.PayloadsApart` | src/wax.rs:344-373 | packed file spans are pairwise apart |
| `WaxPacker.PackedTable` | src/wax.rs:429-466 | the packed table reads back as the entries it was made of |
| `WaxPacker.ParseUndoesPack` | src/wax.rs:344-373 | for every packable image, protected or not, parsing the packed file gives exactly that image |

## Left out

- Interrupts in the pipeline: acceptance happens after MEM in the same clock, so the instruction in MEM/WB runs again, and a wake-up from HALT starts from the mode discussed above.
- Bus errors in the pipeline and in the scalar reference, including those of page walks on fetch.
- Self-modifying code in the pipeline: its program memory is read-only. The decode cache and the block compiler are modelled with writes.
- PagedPipeline.PagedPipelineRefinesScalar: is about runs in which no access loses a page and the page tables stay as they are; translated program text is read straight from memory, and `debug_translate` is not modelled.
- PipelineTheorems.PipelineRefinesScalar: is about platforms whose checks change nothing, which for the real unit means translation straight from the tables.
- Instruction decoding from bits, disassembly, stall and flush statistics, guest writes to the CPU register block.
- The strict JIT tier, block lookup and eviction, tier thresholds, Cranelift itself, panic transport and profiling; the block compiler's intermediate form is modelled as expressions with an evaluator.
- Native blocks and spin skipping in one run, and the pipeline's own spin detector, whose snapshot leaves the L1 state out.
- SpinCpu.SpinCpu.RunInner: does not model host input during a run; the source forgets its probes then.
- CachedRefines.CacheIsInvisible: is about code memory whose reads have no other effect; a hit skips the bus access and with it the drain of pending DMA.
- PipelineTiming.PipelineIsOnTime: leaves interrupts out, as the pipeline does.
- CachedCpu.CachedIsExact: is about platforms whose checks change nothing, so a table walk neither fills the buffer nor counts an access there.
- SpinLoop.LoopIsDeterministic: models strictly ticked devices; the relaxed run's extra interrupt sample behind a HALT is not part of this loop.
- SystemBus.Bus.AdvanceSystemCycles: says nothing about the first call on a bus whose interrupt levels are stale while no event is due.
- BusQuiet.QuietIsTicks: leaves out the request latch of the bus controller, which idle ticks clear and no read can see.
- Internals of timers, real-time clock, disk, DMA and expansion cards: abstract, with the contracts above.
- Generation and event counters are unbounded; in the source they are 64 bits wide. The system clock's saturation is modelled.
- A crash while the COW header itself is being written; `open` refuses such a file.
- CowScanner.ScanCow: gives the cases in which a file is accepted or made for another base, not the exact order of the other errors.
- COW files longer than 2^64 bytes, and with them the overflow checks that cannot fail for shorter ones.
- WaxParser.Parse: does not distinguish the error texts; the library's sort is an insertion sort.
- AudioRing.AudioRingBuffer.PushStereo: samples are real numbers; dividing a 16-bit sample by 32768 is exact in single precision.
- L1 register reads, byte lanes of its memory-mapped registers, and the debugger's address translation.
- Graphics, window, command line, configuration, BIOS, tools and host audio: interfaces to the host, or only easy properties.
