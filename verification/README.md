# A verified model of a superscalar MIPS core

The design is a two-wide, register-renamed MIPS core in SystemVerilog with a C++ reference
interpreter.  This project models its hardest parts as state machines in which one step is one clock
edge, and proves what they promise for every run and every size (ROB, register files, queues, sets,
word and floating-point widths are parameters).

| files | unit |
|---|---|
| `MemoryTypes`, `DataCache*` | the L1 data cache with its retry/store queue (`l1d.sv`) |
| `Lanes`, `DataPath`, `LoadedNumbers`, `UnalignedAccess` | its data path: byte lanes, the loaded numbers, the unaligned loads and stores |
| `RegisterFile`, `Rename*` | renaming, the reorder buffer, retirement and recovery (`core.sv`) |
| `Connections` | what the units above promise each other |
| `Wakeup`, `CompletionPorts`, `PortAdmission` | scheduler wakeup and the shared completion ports (`exec.sv`, `mul.sv`, `fpu.sv`, `fp_div.sv`) |
| `Fetch*` | multi-instruction fetch (`l1i.sv`) |
| `PriorityEncoder` | `find_first_set.sv`, `count_leading_zeros.sv`, `fair_sched.sv` |
| `RestoringDivider`, `Dividers` | `shiftregbit.sv`, `divider.sv`, `unsigned_divider.sv` |
| `FloatFormat`, `FloatMultiply`, `FloatDivide`, `FloatConvert`, `FloatCompare` | the FP units without `DEBUG_FPU` |
| `Arithmetic`, `Bits`, `TwosComplement`, `Multisets`, `Rings` | small facts used by the rest |

How a unit is modelled: a `State` datatype holds its registers and RAMs, functions named after the
RTL signals compute the combinational logic of a cycle, `Next` is the clock edge, `Inv` is the
invariant, and a class with a `Clock` method is the unit whose registers change in place.  A few units
carry history variables; they never influence a signal and exist to state what is promised (the data
cache's log of accepted stores, for example).  Signals from other units are inputs, and a predicate
named `Protocol` says what the unit may expect of them.

## What the proofs found

Each of these has an exact condition and, where it is a failure, an input or a run from reset.

* **Data cache: a flush can lose a load.**  A flush that becomes pending and starts in the same ACTIVE
  cycle in which port 1 discovers that its load misses overwrites the next state, so nothing waits for
  the load any more (`l1d.sv:1775-1793`).  `KeepsInvariant` is an if-and-only-if with this condition,
  `FlushCanLoseLoad` is a run from reset that reaches it.  `QuietRunsAreLegal` gives a condition on the
  inputs that excludes it: every flush is raised with nothing in flight, and no request is offered from
  that cycle until the flush starts.  An empty ROB at the moment of the request is not enough without
  the second half.  The monitor and system-call paths (`core.sv:1006-1037`) raise flushes with an empty
  ROB; the exception path (`core.sv:867-913`: BREAK, illegal instruction, trap, TLB refill, WAIT
  without interrupts) raises them while younger entries are still in the ROB, so it is not covered by
  this condition.
* **Data cache: a full flush is incomplete.**  The walk leaves when it reaches the last set without
  examining it.  `FullFlushExactly`: memory is complete if and only if the last set is not dirty or does
  not differ from memory.  `FlushLeavesDirtyLine` is a run from reset, for every store that changes a
  line of the last set, that ends with the flush reported done and memory stale.
* **Data cache: dead hardware.**  Port-1 forwarding (`r_must_forward`), the WAIT_INJECT_RELOAD state and
  the port-1 stall branches can never be used; the invariant says so.
* **Core: serializing uops** are allocated after testing only that some integer register is free
  (`core.sv:1130`, `core.sv:1174`).  If the bank whose turn it is happens to be empty, the encoder output
  is cut to a register number that may be in use.  `KeepsInvariant` is exact about this condition.
  `SerializeCanClash` reaches it from reset in every core with twice as many physical as logical integer
  registers: 2 * regs + 1 cycles rename every odd logical register into the even bank, and the uop is
  given register 0.  `MachineCanClash` is the instance of `machine.vh`, with 32 and 64 registers.
* **Fetch: two hazards.**  A restart from IDLE does not clear the delay-slot flag, and a control transfer
  predicted taken in a delay slot derails the stream; apart from these two, which both break it, every
  cycle keeps the stream.  `StaleSlotReachable` and `SlotBranchReachable` reach them from reset in every
  program with a jump, or with a jump behind a jump, in one cache line or across a line end.
* **Fetch: jumps at a region's end.**  The target of J and JAL takes its upper bits from the jump itself, the
  interpreter takes them from the delay slot: in the last word of a region of 2^26 words they differ
  (`JumpAgrees`), and a J completes at its allocation (`core.sv:796-800`), so nothing checks it later.
* **Fetch queue:** reset leaves the far pointers out of step; this is harmless, because until the first
  clear the unit idles with an empty queue (`FlagsExactAfterClear`).
* **FP reservations:** a flush that arrives with an FPU start leaves a reservation without an operation,
  because the reservation vector does not look at the flush (`exec.sv:644`, `exec.sv:1988`; exactly then,
  `OrphanReservation`); operations without a reservation never exist, which is what the port needs.  FP
  moves and divides that are ready in the flush cycle are performed all the same.
* **Divider:** the remainder takes the sign of the quotient instead of that of the dividend, so a signed
  division agrees with the interpreter in both halves if and only if the divisor is positive or divides
  the dividend; a zero divisor overwrites hi and lo, which the interpreter leaves alone.
* **SWL at an aligned address** writes the old word back with its bytes swapped; only the SWL/SWR pair is
  right there.  The interpreter's mask for that case is a shift by 32, which C++ leaves undefined.
* **FP compare** orders NaNs beyond infinity; its three outputs are IEEE 754's if and only if neither
  operand is a NaN or the signed rank of the second operand lies below that of the first.
* **FP multiply** gives zero for zero times infinity, takes a negative zero for 2^(-bias), and wraps its
  exponent instead of overflowing to infinity.
* **Integer to FP** rounds up only if the last kept bit is set as well, and loses the increment when all
  kept bits are set: in single precision 2^25 - 1 becomes 2^24.
* `find_first_set` returns the highest set bit, and on zero a value that is no index.

## What the units expect of each other

* Data cache: memory answers only an outstanding request and answers a read with the line it holds
  (`BusRule`); the core does not retire while draining and does not reuse the ROB index of the store it
  handed over in the previous cycle (`CoreRule`); while draining, whatever was accepted after a squashed
  operation that has not retired is squashed as well (`WindowRule`).  `DeadMaskGivesWindow` derives this
  from the dead mask that the rename model computes, given that operations of the cache that have not
  retired are live in the ROB and retire in program order.
* Rename: a monitor uop is still waiting, with room in the scheduler queue, when it is allocated; a uop
  has at most one destination class.
* Scheduler: no register goes in flight again while somebody waits for it (`NoReuse`);
  `RenamingNeverReuses` derives it from the rename model, given that waiting uops were renamed inside the
  ROB window and that what is pushed is what is allocated.  The units that share a register-file write
  port do not write in one cycle (`OnePort`); `PortIsExclusive` derives it from the port model.  With its
  port conditions taken from that model (`PortsFrom`), both start the same uop (`StartsTogether`).
* Fetch: memory answers only a reload, the decoder takes only what the queue offers, and jump targets
  lie in the address space.

## Model

| member | source | states |
|---|---|---|
| DataCacheTheorems.KeepsInvariant | l1d.sv:1376-1899 | a cycle keeps the whole cache invariant if and only if no flush starts over a port-1 load miss |
| DataCacheTheorems.ClashLosesLoad | l1d.sv:1775-1793 | in that case the load is gone: nothing waits, nothing was answered, yet the in-flight counter stays at one |
| DataCacheTheorems.LoadReturnsFlatMemory | l1d.sv:1474-1579 | every answer has the kind its operation calls for, and a load's value, from port 2 or port 1, is the one flat memory held after all stores accepted before it, unless one of those was squashed |
| DataCacheTheorems.AnswerKinds | l1d.sv:1474-1541 | outside a drain a load is always answered with a value, a store with an acknowledgement, a register move as such; an answer without a value is exactly a port-2 answer in a draining cycle |
| DataCacheTheorems.Port2LoadValue | l1d.sv:936-945 | the early hit on port 2, forwarded or not, sees the reference line although older stores may still wait |
| DataCacheTheorems.AcceptRecordsFlatMemory | l1d.sv:1742-1757 | the reference value of a request is fixed at acceptance: the memory after every store accepted before it and not squashed |
| DataCacheTheorems.StoreDiscipline | l1d.sv:1505-1529 | a store writes the array only after its ROB entry retired, and leaves the queue unwritten only if it did not retire and is in the squashed window |
| DataCacheTheorems.StoresInOrder | l1d.sv:1665-1721 | the accepted, unsquashed stores are written oldest first, each exactly once |
| DataCacheTheorems.NoStop | l1d.sv:440-487 | the conditions that stop the simulation never hold: queue overflow and underflow, a first-time request on port 1, a ROB index owned twice |
| DataCacheTheorems.NothingOwed | l1d.sv:729-735 | with nothing in flight port 1 can only hold a retired store |
| DataCacheTheorems.MemqEmptyExactly | l1d.sv:729-735 | memq_empty rises exactly when the core drains and offers nothing, the queue is empty, nothing accepted is unanswered and no reloaded operation is about to be retried |
| DataCacheTheorems.MemqEmptyMeansDrained | l1d.sv:729-735 | memq_empty means that only retired stores are left in the cache |
| DataCacheTheorems.OnlyStoresChangeView | l1d.sv:759-877 | eviction, fill and both flushes never change what memory means; a store changes exactly its line |
| DataCacheTheorems.FullFlushWritesBack | l1d.sv:1848-1884 | when the flush walk ends every set before the last is invalid and memory holds its lines |
| DataCacheTheorems.FullFlushExactly | l1d.sv:1848-1884 | at the end of the walk memory holds every line if and only if the last set is not dirty or does not differ from memory |
| DataCacheTheorems.LineFlushWritesBack | l1d.sv:1821-1847 | a line flush ends with its set invalid and with memory holding every line of that set |
| DataCacheTheorems.FlushAdvances | l1d.sv:1848-1884 | a rank decreases in every flush cycle that does not wait for memory, so the walk terminates |
| DataCacheTheorems.FlushNotLost | l1d.sv:1775-1793 | a flush that is raised stays pending until it starts |
| DataCacheTheorems.FlushStarts | l1d.sv:1775-1793 | with nothing waiting and nothing accepted a pending flush starts, the full one first, the line flush at the set addressed now |
| DataCacheTheorems.FlushDoneExactly | l1d.sv:1821-1884 | completion is reported in exactly the cycle that ends a flush |
| DataCacheRuns.LineFlushRun | l1d.sv:1775-1847 | over a whole line flush: it ends with the set that was addressed when it started invalid, and memory holding all its lines |
| DataCacheRuns.EveryRunIsSequential | l1d.sv:1376-1899 | from reset, over any legal run: the memory view is the written stores replayed, every answer is of the right kind and value, and answered plus outstanding is accepted |
| DataCacheRuns.RunAnswersFlatMemory | l1d.sv:1661-1774 | in every run each answer is of its operation's kind, and every load answered outside a drain and never squashed gets flat memory's value |
| DataCacheRuns.RunWithoutSquash | l1d.sv:582-601 | in a run that drops no store every answered load gets flat memory's value, without exception |
| DataCacheRuns.OnlySquashedLosePrediction | l1d.sv:1505-1529 | every cycle keeps this: a waiting operation whose recorded value may be wrong has been squashed |
| DataCacheRuns.RunConservesRequests | l1d.sv:498-544 | each accepted request is answered exactly once or still outstanding |
| DataCacheRuns.ResetEstablishesInvariant | l1d.sv:630-690 | the reset state satisfies the invariant |
| DataCacheRuns.QuietRunsAreLegal | l1d.sv:1775-1793 | if every flush is raised with nothing in flight and nothing is offered until it starts, no state of the run is a clash |
| DataCacheRuns.QuietRunIsSequential | core.sv:1006-1043 | from reset, such a run keeps the invariant, answers each operation in its kind and each unsquashed load rightly, and loses no request |
| DataCacheHazards.FlushCanLoseLoad | l1d.sv:1775-1793 | from every reset state a load and a flush two cycles later lead into the clash |
| DataCacheHazards.FlushLeavesDirtyLine | l1d.sv:1848-1884 | from every reset state, for every store that changes a line of the last set, a run that ends a full flush with that line dirty and memory stale |
| DataCacheProgress.LoadAdvances | l1d.sv:1376-1899 | in every cycle each waiting load is answered, or the work before it shrinks, or the cache waits for memory or for the ROB to decide about the store at the queue head |
| DataCacheProgress.EveryLoadIsAnswered | l1d.sv:1376-1899 | from reset: every accepted load is answered within 8 * mrq + 2 * sets + 8 cycles that do not wait, flushes included, and without a drain the answer is a value, flat memory's unless the load was squashed |
| DataCacheAcceptance.GraduationExactly | l1d.sv:440-487 | in every reachable state a graduation entry is in use exactly while a store with its ROB index waits: no cycle loses an entry |
| DataCacheAcceptance.AcceptsExactly | l1d.sv:1742-1757 | in ACTIVE a request with a fresh ROB index is accepted if and only if port 1 does not miss, the queue has two free entries, no load leaves it, and it is no load behind a store of the same set on port 2 |
| DataCacheAcceptance.EveryOfferIsAccepted | l1d.sv:1742-1757 | from every reachable state such a request, offered in every cycle, is accepted within 8 * mrq + 4 * sets + 13 cycles that do not wait, flushes included |
| DataCacheAcceptance.EveryStoreSettles | l1d.sv:1661-1721 | every accepted store is written or squashed within 8 * mrq + 2 * sets + 8 cycles that do not wait |
| DataCacheAcceptance.RequestsExactly | l1d.sv:1595-1659 | a request goes to memory in exactly the cycle in which the cache begins to wait for memory, and stands until it is answered |
| DataCacheAcceptance.AwaitedRequest | l1d.sv:1821-1884 | that request is the read of the line port 1 needs, or the write of a dirty line that the cache still holds |
| DataCacheRuns.L1DataCache.Clock | l1d.sv:630-735 | one clock edge in place: the invariant holds again, and the answer is of the right kind with the reference memory's value |
| DataPath.MergeWritesBytes | l1d.sv:1236-1342 | a store changes exactly the bytes it names, in every word of the line (aligned SWL excepted) |
| DataPath.ByteLoads | l1d.sv:1107-1150 | LB and LBU extend bits 8a+7 to 8a of the line, a being the address offset |
| DataPath.HalfLoads | l1d.sv:1151-1169 | LH and LHU extend the two bytes at their even address, the lower address being the upper byte |
| DataPath.WordLoads | l1d.sv:1170-1186 | LW and the merging LWC1 return the big-endian word at their address |
| LoadedNumbers.ByteLoadNumber | l1d.sv:1107-1150 | LB leaves the signed, LBU the unsigned number of the byte at its address in the register |
| LoadedNumbers.HalfLoadNumber | l1d.sv:1151-1169 | LH leaves the signed, LHU the unsigned number of the two bytes at its even address |
| LoadedNumbers.WordLoadNumber | l1d.sv:1170-1186 | LW leaves the signed number of the four bytes of its word |
| DataPath.DoubleLoads | l1d.sv:1187-1191 | LDC1 returns the big-endian double word |
| DataPath.DoubleStores | l1d.sv:1285-1291 | an SDC1 request writes the two words of its half in big-endian order and leaves the other half alone |
| DataPath.DoubleRoundTrip | l1d.sv:1187-1291 | a double word stored by SDC1 is loaded back by LDC1 |
| DataPath.ByteRoundTrip | l1d.sv:1107-1284 | a byte stored by SB is loaded back by LB and LBU, and a byte store elsewhere does not disturb the load |
| DataPath.WordRoundTrip | l1d.sv:137-165 | a stored word is loaded back, and a store to another word does not disturb a load |
| DataPath.ReferenceMemoryLoads | l1d.sv:1170-1291 | in the cache's reference memory a word load sees exactly the newest word store to its address |
| DataPath.ReferenceMemoryBytes | l1d.sv:1236-1342 | every byte of the reference memory is the one written by the newest store that covers it, or the initial one, for every store operation (aligned SWL excepted) |
| Lanes.MergeSelect | l1d.sv:137-165 | merge_cl32 then select_cl32 gives the word back and leaves the other words alone |
| Lanes.LoadsAgree | interpret.cc:693-760 | LWL and LWR are the interpreter's for every lane, word and register |
| Lanes.SwrAgrees | interpret.cc:668-692 | SWR stores what the interpreter stores |
| Lanes.SwlAgrees | interpret.cc:640-666 | an unaligned SWL stores what the interpreter stores |
| Lanes.AlignedSwl | l1d.sv:1322-1327 | an aligned SWL stores the register if and only if memory already holds its bytes in reverse |
| Lanes.AlignedSwlExample | l1d.sv:1322-1327 | an aligned SWL of 1 over zero leaves zero |
| Lanes.LoadPair | l1d.sv:1192-1235 | for every address a, LWL a then LWR a+3 loads the four big-endian bytes at a |
| Lanes.StorePair | l1d.sv:1299-1342 | for every address a, SWL a then SWR a+3 stores exactly those four bytes and nothing else |
| Lanes.PairRoundTrip | l1d.sv:1192-1342 | the unaligned pairs round-trip at every address |
| UnalignedAccess.LwlLoads | l1d.sv:1213-1235 | LWL through the cache: the bytes from its address to the end of the word, above the register's trailing bytes |
| UnalignedAccess.LwrLoads | l1d.sv:1192-1212 | LWR through the cache: the bytes from the start of the word to its address, below the register's leading bytes |
| UnalignedAccess.LoadsAreInterpreters | interpret.cc:693-760 | what the cache's data path returns for LWL and LWR is the interpreter's result |
| UnalignedAccess.LoadPairOnLines | l1d.sv:1192-1235 | on lines of the cache, at every address, across word and line ends: LWL a then LWR a+3 returns the four big-endian bytes at a |
| UnalignedAccess.StorePairOnLines | l1d.sv:1299-1342 | on lines of the cache, SWL a then SWR a+3 writes exactly those four bytes |
| UnalignedAccess.PairRoundTripOnLines | l1d.sv:1192-1342 | a register stored by the pair through Merge is loaded back by the pair through Extract, at every address |
| RegisterFile.AllocKeeps | core.sv:2265-2287 | renaming keeps the class invariant if and only if the chosen register was free |
| RegisterFile.RetireKeeps | core.sv:1543-1592 | retiring the oldest destination keeps it: the retired map follows and the overwritten register becomes free |
| RegisterFile.RestoreKeeps | core.sv:1328-1331 | copying the retired map and free list keeps it with no destination pending |
| RegisterFile.OldIsMappingBefore | core.sv:1765-1779 | every old_pdst is the mapping of its register just before its instruction |
| RegisterFile.Injective | core.sv:2220-2287 | the maps are injective and point at registers that are not free |
| RenameProof.PicksDiffer | core.sv:2220-2263 | paired allocations never collide, because they come from banks of opposite parity |
| RenameProof.FourSteps | core.sv:1448-1592 | a cycle that allocates two and retires two is four single steps |
| RenameProof.BypassIsSequential | core.sv:1410-1446 | the intra-pair bypass is the map as the first uop leaves it |
| RenameProof.RingFlags | core.sv:2044-2049 | the ROB flags computed from pointer bits mean empty, one entry, full and one slot left |
| RenameProof.WindowStep | core.sv:2014-2042 | the live window of the next state is the old one plus the allocated minus the retired entries |
| RenameTheorems.KeepsInvariant | core.sv:837-1261 | a cycle of any state of the control machine keeps the whole invariant if and only if no serializing uop is given a register in use |
| RenameTheorems.FreeWhenEmpty | core.sv:1128-1135 | with an empty ROB some register is free, so the test before a serializing allocation always succeeds |
| RenameRuns.EveryRunRenamesSequentially | core.sv:1110-1127 | in every reachable state the speculative map is the reset map after everything retired and everything live, in order |
| RenameRuns.PairSourcesSequential | core.sv:1410-1446 | the second uop's sources are renamed as if the first had been allocated a cycle earlier |
| RenameRuns.RegistersConserved | core.sv:2108-2140 | every register is free, or mapped once, or held by one live entry; the retired free list is the exact complement of the retired map |
| RenameRuns.LiveSourcesAllocated | core.sv:1543-1592 | no mapping that a live entry was renamed with has been freed |
| RenameRuns.DeadMaskIsWindow | core.sv:1908-1933 | the dead mask marks exactly the slots from head to tail |
| RenameHistory.PreciseRecovery | core.sv:1074-1127 | in every run, after a redirect and a recovery of any length, the map is the one after everything retired before, the redirecting uop, and its delay slot exactly if the uop's kind and its last completion let it execute; the free registers are exactly the unmapped ones |
| RenameHistory.EveryEntryFollows | core.sv:1856-1895 | in every run each live ROB entry is that of the uop allocated in its slot, with the outcome of the last completion given to it since, and knows whether it sits in a delay slot |
| RenameHistory.RedirectExactly | core.sv:826-950 | a redirect happens exactly when the oldest uop has completed with a fault, no interrupt is taken and its delay slot, nullified or not, is there |
| RenameProgress.RetiresExactly | core.sv:946-1006 | in ACTIVE none, one or two uops retire, exactly as the uops and their completions say |
| RenameProgress.SlotRetiresExactly | core.sv:1074-1092 | in DRAIN the delay slot retires exactly when it has completed, unless it is nullified |
| RenameProgress.EveryRetiredCompleted | core.sv:826-832 | in every run no uop retires before it has completed, and none retires beside or behind a fault |
| RenameProgress.AllocatesExactly | core.sv:963-990 | an ordinary uop is allocated if and only if the ROB, the scheduler queue and the register bank whose turn it is have room, and neither an interrupt nor a redirect happens |
| RenameProgress.AllocatesTwoExactly | core.sv:975-987 | the same for the second uop, with the other bank |
| RenameProgress.LeavesActiveExactly | core.sv:837-1045 | where ACTIVE leads to, from the uops and their completions alone |
| RenameProgress.SerialEndsExactly | core.sv:1136-1196 | a serializing or monitor uop is waited for until it has completed and the restart is acknowledged |
| RenameProgress.EveryDetourEnds | core.sv:1074-1196 | in every run a recovery, an interrupt, a serializing uop and a monitor call each lead back to ACTIVE within three cycles that need not wait |
| RenameProgress.EveryRunFlushesExactly | core.sv:837-1127 | outside DRAIN, ds_done is high exactly in an interrupt's drain and in RAT |
| RenameProgress.SlotEndsExactly | core.sv:932-1092 | in a redirect's DRAIN it is low exactly until the uop's delay slot, if it has one, has completed |
| RenameRuns.PreciseInterrupt | core.sv:838-850 | after an interrupt and a drain of any length the map is the one after everything that had retired, with the same free registers |
| RenameRuns.ClashMeansEmptyBank | core.sv:1128-1178 | the exact condition: the selected bank is empty and the register that the cut encoder output names is in use |
| RenameHazards.SerializeCanClash | core.sv:1128-1135 | from every reset state of every core with 2 * regs physical registers (at least eight): a legal run of 2 * regs + 1 cycles after which a serializing uop is given a register in use |
| RenameHazards.MachineCanClash | machine.vh:26-39 | the same for 32 logical and 64 physical registers, in 65 cycles |
| RenameRuns.RenameUnit.Clock | core.sv:1282-1331 | one clock edge in place; in the RAT state map and free list become the retired ones |
| Wakeup.ScoreboardIsFile | exec.sv:1096-1174 | the scoreboards drop exactly the registers that the write ports of the register files store |
| Wakeup.KeepsInvariant | exec.sv:790-908 | with the writers listed separately for allocation, waiting entries, scoreboards and register files: every cycle keeps each ready bit equal to the complement of its register's in-flight bit, and a uop executes only with stored sources |
| Wakeup.RequestsExactlyWhenReady | exec.sv:826-866 | an entry requests if and only if it is valid, its port is free and every source is stored in its register file by this edge: nothing runs early, no wakeup is lost |
| Wakeup.SelectedIsReady | exec.sv:928-946 | the uop sent to execution has all sources stored and leaves its entry |
| Wakeup.FillsVacantEntry | exec.sv:704-730 | a uop never overwrites a waiting one and is refused only when all entries are taken |
| Wakeup.WorkConserving | exec.sv:940-944 | an entry whose port is free and whose sources are written is never left while the scheduler idles |
| Wakeup.ReadyEntryIssues | exec.sv:711-716 | an entry whose sources are stored and whose port stays free is sent to execution within as many cycles as there are entries |
| Wakeup.FlushClears | exec.sv:731-760 | after a flush nothing executes, no entry is valid and no register is in flight |
| Wakeup.StartIsChosen | exec.sv:741-760 | without a flush the uop that executes is the selected one |
| Wakeup.RunConserves | exec.sv:704-760 | in every run each uop taken from the queue executes once, is dropped by a flush while it waits, or still waits, and nothing else executes |
| Wakeup.IssuedWaited | exec.sv:741-760 | what executes next was waiting with all its sources stored, and no flush came |
| Wakeup.RunKeepsInvariant | exec.sv:1096-1174 | both hold in every reachable state |
| Wakeup.IntegerScheduler.Clock | exec.sv:866-946 | one clock edge in place: the uop returned is the one that executes, it was waiting with stored sources, and none is lost |
| IntegerPort.KeepsInvariant | exec.sv:619-645 | slot j of the reservation vector is set exactly when one unit completes in j cycles |
| IntegerPort.MachineConfig | machine.vh:55-61 | the latencies of machine.vh fit the 32-bit divider and the assumption of the port proofs |
| IntegerPort.NeverCollides | exec.sv:2758-2768 | on every cycle of every run at most one of ALU, multiplier and divider completes |
| IntegerPort.RunConserves | exec.sv:2772-2797 | every selected operation is reported exactly once, dropped by a flush before it starts, or in flight |
| IntegerPort.Port.Clock | exec.sv:2758-2797 | one clock edge of port 1 in place, with the conservation law |
| PortAdmission.SelectedExactly | exec.sv:848-866 | an offered operation is selected if and only if no flush comes and the units in flight leave its completion slot free |
| PortAdmission.OfferedIsSelected | exec.sv:848-866 | in every reachable state an operation offered without a flush is selected within w + 5 cycles (division), one (multiplication) or mul + 4 (single-cycle) |
| PortAdmission.RequestsExactly | exec.sv:848-866 | with the port conditions taken from the units, an entry requests if and only if it waits, its sources are stored and the units leave room for it |
| PortAdmission.StartsTogether | exec.sv:741-760 | the scheduler and the port start the same uop in every cycle, flushes included |
| FloatPort.KeepsInvariant | exec.sv:2012-2292 | with flushes in any cycle: every operation in the FPU pipeline has its reservation and a working FP divider has the port to itself |
| FloatPort.NeverCollides | exec.sv:2798-2826 | the writeback count that stops the simulation above one is at most one on every cycle of every run |
| FloatPort.RunConserves | exec.sv:2850-2896 | in every run each operation that begins is reported on port 2 exactly once or is still in flight, and nothing else is reported |
| FloatPort.PoppedBegins | exec.sv:2291-2292 | without a flush the operations that begin are exactly the ones popped from the FP queue |
| FloatPort.Port.Clock | exec.sv:2798-2896 | one clock edge of port 2 in place, with the conservation law |
| FloatAdmission.BeginsExactly | exec.sv:2012-2292 | an FP operation at the queue head begins if and only if no FP divider works and its completion slot, or for a division every slot, is free |
| FloatAdmission.OfferedBegins | exec.sv:2012-2292 | in every reachable state it begins within max + 7 cycles that do not wait for a mantissa divider |
| PriorityEncoder.FindFirstSetIsHighest | find_first_set.sv:16-53 | for every width the encoder returns the highest set bit, and on zero a value that is no index |
| PriorityEncoder.LeadingZerosComplement | count_leading_zeros.sv:16-52 | leading zeros plus the highest set bit is N - 1, and N leading zeros on zero |
| PriorityEncoder.LeadingZerosNormalise | count_leading_zeros.sv:16-52 | shifting left by the count puts the leading one into the top bit |
| PriorityEncoder.SelectPicksRequest | fair_sched.sv:17-46 | the rotating select always picks a requesting line, and the line whose turn it is wins |
| PriorityEncoder.NoStarvation | fair_sched.sv:24-36 | a line held high is picked within N consecutive cycles from any counter value |
| PriorityEncoder.FairScheduler.Clock | fair_sched.sv:24-46 | one clock edge of the selector in place |
| FetchQueue.FlagsCountFreeSlots | l1i.sv:475-488 | each k-slot flag means exactly that fewer than k slots are free |
| FetchQueue.QueueIsFifo | l1i.sv:490-569 | pushing up to four and popping up to two is a FIFO step |
| FetchTheorems.GroupFacts | l1i.sv:733-769 | a pushed group fits its line, starts with an instruction predicted not taken, holds no further control transfer and has room |
| FetchTheorems.HitTracks | l1i.sv:850-984 | a hit pushes exactly what one-at-a-time fetch emits and the next read goes to the right line |
| FetchTheorems.KeepsInvariant | l1i.sv:789-1086 | every cycle keeps the stream invariant, except the two hazards, which both break it |
| FetchTheorems.TakenThenSlotThenTarget | l1i.sv:850-926 | every predicted-taken branch is followed by its delay slot and then its target, everything else by the next word |
| FetchTheorems.EveryRunFetchesSequentially | l1i.sv:723-993 | in every run the pushed stream is that of one-at-a-time fetch under the same predictions, every control transfer was predicted, and the queue holds what the decoder has not taken |
| FetchWords.EveryRunFollowsWords | l1i.sv:259-345 | in every run each word pushed outside a delay slot carries exactly the target that its opcode and the predictor give, a delay slot carries none, and only the first word of a group is a control transfer |
| FetchWords.PredictedByWord | l1i.sv:845-912 | predecoding and prediction together do what the instruction word says, for every word |
| FetchTargets.JumpAgrees | l1i.sv:845-861 | J and JAL go where the interpreter goes if and only if they are not the last word of their region of 2^26 words |
| FetchTargets.BranchAgrees | l1i.sv:864-889 | a branch goes where the interpreter goes, at every address and for every offset |
| FetchTargets.EveryTargetIsInterpreters | interpret.cc:1774-1793 | in every run each direct control transfer pushed with a target carries the interpreter's target, except exactly such a jump |
| FetchTheorems.NoOverflow | l1i.sv:447-453 | no push overruns the queue |
| FetchTheorems.FlagsExactAfterClear | l1i.sv:1377-1382 | from the first clear on every flag is exact; before it the unit idles with an empty queue and pushes nothing |
| FetchTheorems.FlushInvalidatesAll | l1i.sv:1030-1042 | in every run no line is valid when the flush walk has returned to IDLE |
| FetchProgress.FetchKeepsPushing | l1i.sv:789-1086 | from every reachable fetching state, undisturbed, an instruction is pushed within seven cycles that do not wait for memory, the TLB or room |
| FetchProgress.PushesExactly | l1i.sv:805-850 | something is pushed if and only if the unit is in ACTIVE, nobody wants a flush or restart, the lookup finds its page and its line, and the queue has room |
| FetchProgress.GroupExactly | l1i.sv:927-984 | a hit pushes the words up to the next control transfer or line end if the queue has room for all of them, else one |
| FetchProgress.DecoderTakes | l1i.sv:490-569 | the one or two instructions that the decoder acknowledges leave the queue at the front, what is pushed joins at the back |
| FetchProgress.RequestsNotLost | l1i.sv:709-719 | a restart or flush that is asked for stays pending until it is served |
| FetchProgress.EveryRestartIsServed | l1i.sv:789-1086 | in every run a pending restart is acknowledged within sets + 4 cycles that do not wait for a reload, even behind a flush walk |
| FetchHazards.StaleSlotReachable | l1i.sv:790-800 | from every reset state, in every program with a jump: a run that restarts with a stale delay-slot flag and breaks the stream |
| FetchHazards.SlotBranchReachable | l1i.sv:850-926 | from every reset state, in every program with a jump behind a jump, in the same line or the next: a run that takes the second one in its delay slot and breaks the stream |
| FetchTheorems.FetchUnit.Clock | l1i.sv:1363-1430 | one clock edge in place, returning what was pushed |
| RestoringDivider.StepKeeps | divider.sv:153-169 | one cycle keeps 2^k * A = q * D + R with R < D, and the quotient bits in the shift register |
| RestoringDivider.NothingLost | divider.sv:153-160 | the shift never drops a set bit of the partial remainder |
| RestoringDivider.DivisionIsExact | unsigned_divider.sv:90-132 | for every width, W cycles leave A / B in the shift register and A mod B in the upper half |
| RestoringDivider.DivisionByZero | divider.sv:153-169 | a zero divisor yields all ones and the dividend |
| IntegerDivider.DivideCorrect | divider.sv:123-193 | the result appears exactly W + 4 cycles after the start, whatever the inputs do meanwhile |
| IntegerDivider.DivideByZero | divider.sv:123-193 | a division by zero ends with all ones (one, if signed and the dividend is negative) and the dividend |
| IntegerDivider.TruncIsDivision | interpret.cc:1668-1672 | the reference quotient and remainder satisfy x = q * y + r |
| IntegerDivider.SignedQuotient | interpret.cc:1668-1672 | the signed quotient is the interpreter's wherever that has a value |
| IntegerDivider.SignedRemainder | divider.sv:174-184 | there, the signed remainder is the interpreter's if and only if the divisor is positive or divides the dividend |
| IntegerDivider.RemainderSignExample | divider.sv:178-182 | 7 by -2 in 32 bits: remainder -1 here, 1 in the interpreter |
| IntegerDivider.RunAgrees | interpret.cc:1668-1681 | a whole division, signed or not, ends with the interpreter's lo and hi if and only if the divisor is not zero and, if signed, the quotient fits and the remainder's sign cannot differ |
| IntegerDivider.OverflowWraps | divider.sv:123-193 | most-negative by -1, which has no value in C++, ends with the dividend and zero |
| IntegerDivider.Divider.Clock | divider.sv:63-193 | one clock edge of the divider in place |
| UnsignedDivider.DivideCorrect | unsigned_divider.sv:73-130 | the quotient appears exactly W + 2 cycles after the start, for every width |
| FloatMultiply.MultiplyRoundsToNearest | fp_mul.sv:221-276 | for normal operands and an in-range exponent the product is rounded to nearest, ties away from zero, with an error of at most half a unit |
| FloatMultiply.MultiplyInteger | fp_mul.sv:121-177 | sign, exponent field and significand of the result, with the carry-out renormalisation |
| FloatMultiply.NothingNearer | fp_mul.sv:146-177 | no other multiple of the last place is nearer to the exact product |
| FloatMultiply.SpecialsExactly | fp_mul.sv:105-118 | with a zero or infinite operand the product is IEEE 754's if and only if it is not zero times infinity and a negative zero meets only a positive zero, 1.0 or -1.0 |
| FloatMultiply.NegativeZeroFirst | fp_mul.sv:108-114 | a negative zero is multiplied as if it were 2^(-bias) |
| FloatMultiply.ExponentWraps | fp_mul.sv:221-276 | for all normal operands: the right significand, and an exponent field that wraps by 2^e when out of range |
| FloatDivide.EveryDivision | fp_div.sv:209-278 | in every run the result is flagged exactly when the division in progress has lasted 2f + 5 cycles, one more with the normalise step, and it is that division's quotient; the unit idles exactly in between |
| FloatDivide.DivideRun | fp_div.sv:209-278 | a division started in a ready state ends after exactly that many cycles, whatever the inputs do meanwhile |
| FloatDivide.FloatDivider.Clock | fp_div.sv:148-278 | one clock edge in place: each division ends after its latency with its quotient in the output register and leaves the unit ready |
| FloatDivide.DivideTruncates | fp_div.sv:226-262 | the result never exceeds the exact quotient and lies less than one unit below it, or two after the normalise step |
| FloatConvert.ConvertExact | fp_convert.sv:42-74 | integers of at most f + 1 bits, and 2^(f+1), are encoded exactly |
| FloatConvert.ConvertRounds | fp_convert.sv:59-67 | for longer integers the exponent is right, the error is below one unit unless all kept bits and the first dropped bit are set, and at most half a unit exactly when, besides, an even significand drops at most half a unit |
| FloatConvert.IncrementLost | fp_convert.sv:59-67 | in single precision 2^25 - 1 becomes 2^24 |
| FloatConvert.TruncateTowardZero | fp_trunc_to_int32.sv:59-87 | truncation is exact rounding toward zero wherever the integer part fits |
| FloatConvert.TruncateInRange | fp_trunc_to_int32.sv:59-87 | in particular for every magnitude from one up to 2^31 |
| FloatConvert.TruncateFraction | fp_trunc_to_int32.sv:59-72 | magnitudes below one give zero |
| FloatConvert.ConvertRoundTrip | fp_convert.sv:42-74 | converting and truncating back is the identity for every format wide enough |
| FloatConvert.Int32ThroughDouble | exec.sv:1895-1912 | every int32 survives the way through double precision |
| FloatConvert.Int32ThroughSingle | exec.sv:1895-1912 | every int32 of magnitude at most 2^24 survives the way through single precision |
| FloatCompare.ComparatorIsOrder | fp_compare.sv:92-111 | LT, LE and EQ are the order of the encoded values for every width, with subnormals, infinities and signed zeros |
| FloatCompare.IeeeExactly | fp_compare.sv:92-111 | LT, EQ and LE are all IEEE 754's if and only if neither operand is a NaN or the signed rank of the second is below that of the first |
| FloatCompare.NanIsOrdered | fp_compare.sv:97-111 | a NaN equals itself and compares one way or the other with anything, where IEEE 754 says neither |
| FloatCompare.InfinityIsLargest | fp_compare.sv:97-111 | infinity lies above every finite number in this order |
| FloatCompare.RankIsMagnitude | fp_compare.sv:64-67 | the order used for comparison is the order of the magnitudes |
| Connections.PortIsExclusive | exec.sv:2637-2690 | in every run of the completion port the units that share a register-file write port never write together |
| Connections.RenamingNeverReuses | core.sv:2337-2382 | a register that renaming allocates and pushes is the source of no uop renamed inside the ROB window |
| Connections.DeadMaskGivesWindow | core.sv:1908-1933 | the dead mask of the ROB gives the data cache its squash window |

## Left out

- DataPath.MergeWritesBytes: excludes the aligned SWL, whose exact behaviour AlignedSwl states, and the 64-bit store, which DoubleStores states.
- FloatConvert.ConvertExact: integers of at most f + 1 bits, and 2^(f+1); ConvertRounds states the others.
- FloatMultiply.MultiplyRoundsToNearest: normal operands and in-range exponents only; SpecialsExactly and ExponentWraps state zeros, infinities and exponents out of range, nothing is claimed about subnormal and NaN operands.
- FloatDivide.DivideTruncates: normal operands and in-range exponents only; square root is ignored by the source outside DEBUG_FPU.
- RenameTheorems.KeepsInvariant: exception entry (EPC and cause writes, halt and resume, ERET, WAIT) is one absorbing state; the drained condition and the restart handshake are inputs.
- Data cache: the TLB (its result is not used), memory response latency counters and statistics; the RAMs are taken to be invalid after reset; the memory behind the cache answers with the line it holds.
- Data cache: a store-conditional is answered when it enters the queue without a destination, so its result value is never delivered; the model answers it like any store.
- Scheduler: one integer scheduler; the memory and FP queues, which test the in-flight bits directly, the values in the register files, and the register that an emulated system call clears.
- Completion ports: which operand values are computed; the multiplier's products, with MADD and MSUB, are left out because the accumulate step disagrees with the interpreter.
- Fetch: the predictor tables, return stacks and the BTB are inputs; the two direct target computations are parameters, `FetchTargets` gives the machine's; program counters are word addresses, and program text does not change.
- FP addition (its sticky index is taken from the wrong distance), the DEBUG_FPU paths, FCR bit insertion.
- Decoding, the simulation driver, ELF loading, system calls, and the interpreter apart from division and the unaligned accesses.
