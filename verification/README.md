# A verified model of the Apollo core board emulator

The repository emulates the core board of an Apollo workstation and carries the tools that read its
tapes, disks and ROMs. This project models the parts of it whose correctness is argued in comments
about *every* run, and proves those arguments in Dafny.

`dafny verify dfyconfig.toml` checks all of it.

## What is modelled

- **The bus.** The MC68030's bus arbitration machine (section 7.7.4 of the MC68030 User's Manual) and
  the board's priority arbiter around it (`Arbitration`), the 8237A (`Dma8237`), the adapter's route to
  the bus (`BusMaster`, `AdapterRuns`), and one bus clock of the board: refresh, the guarded DMA poll with
  its two-controller cascade, arbitration and multi-clock transfers (`BoardBus`). `BusRuns` has what every
  run keeps, `HeldCycles` whose cycle a held clock runs, `GuardedPoll` when skipping the poll is invisible,
  `BusObject` the board clocked in place.
- **Addresses and memory.** The decode of the five board maps (`AddressDecode`) and of the devices behind
  it (`DeviceDecode`), main memory with its parity and its one- to four-byte transfers (`MainMemory`), the DMA translation map (`TranslationMap`),
  the write-through virtual cache (`CacheRam`), the core registers (`CoreRegisters`), the transmit ring
  and the empty-slot list (`TransmitRing`, `EmptySlots`).
- **The state hash.** What the feeders absorb (`StateFeed`, `DeviceFeeds`, `DisplayFeed`), what two equal
  feeds of a whole board mean (`WholeFeed`), and what the rings in it are as queues (`FeedQueues`).
- **The tools.** The code tracer (`CodeTracer`), `wbak` tape records and objects (`TapeRecords`,
  `TapeObjects`), block layout and directory heaps (`BlockLayout`, `DirectoryHeap`), the table walk
  (`TableWalk`) and the tables it walks (`TableImages`, `PageMaps`), PNG row un-filtering, section 6 of
  RFC 2083 (`PngFilter`), and alias resolution (`RomAliases`).

Where the source updates an object or an array in place, so does the model: each such class or method is
proved against a step function on values, and the theorems are about that function and every run of it.
`Words`, `Arithmetic` and `Options` hold what the modules share. Integers are naturals with each wrap
written out.

## Where the code and its account of itself differ

The model follows the code. Each of these is a lemma, named with it.

- **Skipping the DMA poll is not invisible.** The 802.3 card owes a pause after nine bytes and pays it on
  the sample that finds it owed. That poll sees no line, lets `dma_possible` fall, and nothing moves until
  a re-arming access (`GuardedPoll.DemandPauseStallsGuard`; `src/core/board/ap_board.c:1235`,
  `src/core/device/ap_3c505.c:267-304`). An adapter on channel 0 or 3 of the first controller has its pin
  driven after the poll, with the same effect (`AdapterPinIsLoud`). `GuardInvisibleIff` gives the exact
  condition over runs.
- **The serial feed is not an exact encoding of the channel.** The character waiting in the shift register
  and the queued characters' error flags are left out of `src/core/board/ap_board_state.c:284-312`, so two
  boards can feed alike and differ after one read (`DeviceFeeds.FeedHidesWaiting`, and exactly when in
  `ReadKeepsFeedIff`). It is exact for what it does feed (`SerialExact`).
- **A status write clears the floating-point trap.** The comment at the store says it survives; the mask
  kept does not include it (`CoreRegisters.WriteStatus`, `ConditionHistory`).
- **A word read is not two byte reads** at master request, task alias and memory present
  (`CoreRegisters.WordReadIffTwoBytes`).
- **Not every placement lies below memory.** The comment at `src/core/board/ap_board.c:451-456` says so; the
  DS5500's protection map and the DS3000's monochrome frame buffer lie above it
  (`AddressDecode.SomeLieAbove`). The reordering is sound all the same, because no two rows overlap (`AddressDecode.MapsAreApart`). Only the AT memory window
  overlaps memory, on a DS3000 (`RamLaterIff`).
- **The observer does not drop ignored address bits.** On a DS3000 an address with high bits set reads
  memory, but `ap_board_peek_ram` refuses it (`MainMemory.PeekIff`).
- **The dropped tally of the empty-slot list counts accesses**, not addresses
  (`EmptySlots.ListIsFirstDistinct`).
- **An early page gives every page under it one frame.** The walk tool masks the address to the page size
  whatever level it stopped at; the emulated processor carries the unread index bits through
  (`src/core/cpu/m68030/ap_m68030_walk.c:17-30`, section 9 of the MC68030 User's Manual).
  `TableImages.EarlyPageAgreesIff` says exactly when the two agree.
- **A cylinder smaller than a block** makes the block map the identity, and neighbouring blocks overlap
  (`BlockLayout.DisjointIffSound`).

## Model

| member | source | states |
|---|---|---|
| Arbitration.IdleClockChangesNothing | src/core/cpu/m68030/ap_m68030_arb.c:134-163 | The shortcut taken on an idle processor clock: with settled outputs and both synchronisers empty, the full clock would write back exactly what is there. |
| Arbitration.ClockSettles | src/core/cpu/m68030/ap_m68030_arb.c:113-189 | After every clock the outputs follow the state and R and A follow their registers, which is what the shortcut relies on. |
| Arbitration.Arb030.Tick | src/core/cpu/m68030/ap_m68030_arb.c:155-189 | The in-place clock, shortcut included, refines the full clock. |
| Arbitration.Arb030.DriveOutputs | src/core/cpu/m68030/ap_m68030_arb.c:113-130 | G and T by state. |
| Arbitration.HighestUnique | src/core/board/ap_arbiter.c:24-34 | At most one requester is the lowest-numbered line up, so any scan that finds one finds the same one. |
| Arbitration.ArbiterPort.HighestRequester | src/core/board/ap_arbiter.c:24-34 | The scan returns a line that is up with none up before it, or the processor when no line is up. |
| Arbitration.ArbiterPort.Request | src/core/board/ap_arbiter.c:12-22 | Drives one line and keeps the invariant; a line out of range is ignored. |
| Arbitration.ArbiterPort.Tick | src/core/board/ap_arbiter.c:58-89 | The in-place clock refines the two-machine step and keeps the invariant. |
| Arbitration.ArbiterPort.Exchange | src/core/board/ap_arbiter.c:58-89 | The part of the clock before the processor's own, in place: grant sampled, mastership settled, acknowledge and request driven. |
| Arbitration.AnyGrantTick | src/core/board/ap_arbiter.c:58-89 | For any behaviour of the grant: acquisition only on a clock with grant and only by the lowest-numbered requester, no pre-emption while the line is up, release exactly when it drops, acknowledge exactly while a device is master. |
| Arbitration.ArbiterTickSafety | src/core/board/ap_arbiter.c:58-89 | One clock with the MC68030 behind the pins: mastership moves as for any processor, and the handshake between the two machines is kept. |
| Arbitration.DeviceAndProcessorExclude | src/core/board/ap_arbiter.c:36-46 | While a device is master the processor is off the bus and may not run; acknowledge is mastership. |
| Arbitration.StepKeepsInv | src/core/board/ap_arbiter.c:12-89 | Every event (line, lock, deferral, clock) keeps the handshake invariant. |
| Arbitration.RunIsExclusive | src/core/board/ap_arbiter.c:12-89 | Over every run from reset with the MC68030 behind the pins, proved by induction from the reset state: a device is never master while the processor drives, and the handshake invariant always stands. |
| Arbitration.ExclusionNeedsTheProcessor | src/core/board/ap_arbiter.c:58-89 | The exclusion is not the arbiter's: a run in which a processor grants the bus and drives on, with a device master at the same time. |
| Arbitration.HandoverThroughProcessor | src/core/board/ap_arbiter.c:58-89 | Over every run from reset, whatever the processor does at its pins: between two different device masters there is a moment when the processor is master. |
| Arbitration.NeverPreempted | src/core/board/ap_arbiter.c:58-89 | Over every run from reset, whatever the processor does: a device that keeps its line up keeps the bus. |
| Arbitration.MayRunIff | src/core/board/ap_arbiter.c:36-46 | The processor may run exactly in state 0, where grant and acknowledge are both down. |
| Arbitration.RequestActedOnIff | src/core/cpu/m68030/ap_m68030_arb.c:44-111 | A request that has come through takes the processor out of state 0, and gains a second grant in state 4, exactly when no locked sequence and no committed cycle stands. |
| Arbitration.DeferredKeepsBus | src/core/cpu/m68030/ap_m68030_arb.c:30-59 | Over every run, whatever the lines do: a processor on the bus stays on it and may run for as long as every clock finds it locked or committed. |
| Arbitration.NoGrantUnderRmc | src/core/board/ap_arbiter.c:58-89 | No clock makes a device master during a read-modify-write, its first read included. |
| Arbitration.RmcKeepsMastership | src/core/board/ap_arbiter.c:58-89 | Over every run, whatever the processor's machine does: no device becomes master between the first read of a read-modify-write and its end. |
| Arbitration.GrantProgress | src/core/cpu/m68030/ap_m68030_arb.c:48-111 | With a line up and the bus unlocked, one clock either hands over the bus or brings the handover exactly one clock nearer. |
| Arbitration.GrantedOnTheClock | src/core/cpu/m68030/ap_m68030_arb.c:48-189 | No starvation, to the clock: the processor keeps the bus for exactly the stated number of clocks, at most five in all, and the next clock gives it to the line then highest. |
| Arbitration.ProcessorGetsBusBack | src/core/cpu/m68030/ap_m68030_arb.c:48-189 | With every line down the processor is running again within twelve clocks. |
| Dma8237.MidTransfer | src/core/device/ap_i8237.c:218-305 | A transfer inside a block moves only its channel's address and count, reports no terminal count and leaves the channel being served. |
| Dma8237.MidBlock | src/core/device/ap_i8237.c:218-305 | The same for any number of transfers up to the programmed count. |
| Dma8237.LastTransfer | src/core/device/ap_i8237.c:255-344 | The transfer at count zero reports terminal count and reloads the channel or masks it. |
| Dma8237.BlockEnds | src/core/device/ap_i8237.c:218-344 | A block is count + 1 transfers: the last and no earlier one reports terminal count, and a channel that does not reload asks no more. |
| Dma8237.BlockCycles | src/core/device/ap_i8237.c:218-305 | The k-th transfer of a block is at the k-th address, to or from memory or neither as the mode says, and reports terminal count exactly at k = count: every direction, counting either way. |
| Dma8237.BlockAddresses | src/core/device/ap_i8237.c:218-305 | No address comes twice in a block, in any direction, for all 65536 transfers it can have. |
| Dma8237.CopyCycles | src/core/device/ap_i8237.c:158-216 | Memory to memory, every cycle copies from the k-th source to the k-th destination; a held source stands still. |
| Dma8237.CopyEnds | src/core/device/ap_i8237.c:158-216 | A memory-to-memory block is channel 1's count + 1 copies: then both software requests are down, channel 1 is reloaded or masked, and another copy runs only if channel 0's own pin asks. |
| Dma8237.ProgramPair | src/core/device/ap_i8237.c:388-405 | Clearing the flip-flop and writing low then high loads base and current together and disturbs nothing else. |
| Dma8237.ReadPair | src/core/device/ap_i8237.c:346-386 | The pair reads back in the same order and the part is unchanged after it. |
| Dma8237.StatusRead | src/core/device/ap_i8237.c:346-386 | Terminal counts and standing requests each in their own bit; the read takes the terminal counts down and nothing else. |
| Dma8237.CommandWrites | src/core/device/ap_i8237.c:388-460 | What each command register does with a byte: request and mask bits by channel, mode to the channel it names, flip-flop and mask cleared, master clear a reset. |
| Dma8237.MaskWrite | src/core/device/ap_i8237.c:388-460 | The whole mask bit by bit. |
| Dma8237.ArmedServesIff | src/core/device/ap_i8237.c:388-460 | The driver's sequence (address, count, mode, unmask), in every working mode, leaves the channel selected if and only if the part was enabled, not copying, and no channel of higher priority asked. |
| Dma8237.ProgrammedBlockIff | src/core/device/ap_i8237.c:218-460 | Programming end to end, in every working mode: the next count + 1 cycles are the programmed block's if and only if the same holds. |
| Dma8237.ModeFields | src/core/device/ap_i8237.c:218-305 | The fields of a mode byte: channel, direction, reload, the sense the address counts in, and the kind of service. |
| Dma8237.CommandFields | src/core/device/ap_i8237.c:77-216 | The fields of a command byte: memory to memory, the held source, the disable. |
| Dma8237.I8237.SetRequestPin | src/core/device/ap_i8237.c:113-120 | Drives one pin. |
| Dma8237.I8237.ServicePending | src/core/device/ap_i8237.c:77-111 | The scan finds the lowest asking channel of an enabled part. |
| Dma8237.I8237.ReachTerminalCount | src/core/device/ap_i8237.c:307-344 | Status, software request, reload or mask, in place. |
| Dma8237.I8237.RunTransfer | src/core/device/ap_i8237.c:218-305 | One service cycle in place refines the transfer function. |
| Dma8237.I8237.MemoryToMemory | src/core/device/ap_i8237.c:158-216 | The memory-to-memory cycle in place refines the same function. |
| BusMaster.MasterPort.Tick | src/core/board/ap_master.c:28-93 | The adapter's clock in place: pin, claim on the arbiter and handshake state move together as the step function says. |
| AdapterRuns.AcknowledgedInTurn | src/core/board/ap_master.c:28-93 | An adapter that asks with its line up is acknowledged on exactly the clock the handover falls on. |
| AdapterRuns.Acknowledges | src/core/board/ap_master.c:28-93 | However it starts, asking is acknowledged within six clocks, no line above it standing and the bus unlocked. |
| AdapterRuns.HoldsOrLeaves | src/core/board/ap_master.c:60-93 | One clock on the bus: kept while either line is up, owned from MASTER.L on a cascade channel, idle with its line dropped when both are down. |
| AdapterRuns.HoldsThroughout | src/core/board/ap_master.c:28-93 | So the bus is kept for any number of clocks either line stands. |
| AdapterRuns.LeavesTheBus | src/core/board/ap_master.c:28-93 | And the processor is master again two clocks after both are down. |
| BoardBus.PollKeepsInv | src/core/board/ap_board.c:1119-1252 | Refresh and the poll keep the board invariant. |
| BusRuns.TickKeepsInv | src/core/board/ap_board.c:1119-1320 | A whole bus clock, guarded or not, keeps the board invariant. |
| BusRuns.HeldOnlyWhileAsking | src/core/board/ap_board.c:1176-1290 | The DMA line is master only on a clock whose poll found a request, and never on a clock that skipped the poll with the line down. |
| BusRuns.OneDriver | src/core/board/ap_board.c:1252-1290 | A clock that ran a transfer leaves the processor not running and the adapter unacknowledged; an acknowledged adapter leaves the processor not running. |
| HeldCycles.CascadedCycle | src/core/board/ap_board.c:1267-1281 | When the second controller selects its cascade channel the cycle is the first's: one transfer starts, the channel it serves moves one address and one count, and the second controller does not move. |
| HeldCycles.OwnCycle | src/core/board/ap_board.c:1267-1281 | When it selects any other channel the cycle is its own and the first controller does not move. |
| HeldCycles.InFlight | src/core/board/ap_board.c:1257-1265 | While a transfer is in flight neither controller moves. |
| HeldCycles.TapeByte | src/core/board/ap_board.c:1176-1281 | End to end from the tape's line: a waiting byte is moved by the first controller's channel 1 through the cascade. |
| HeldCycles.OwnByte | src/core/board/ap_board.c:1176-1281 | The same for a device of the second controller. |
| HeldCycles.LineAndPause | src/core/device/ap_3c505.c:267-290 | The 802.3 card asks only when fitted, enabled, not done, ready and owing nothing; the sample that finds a pause owed pays it and sees no request. |
| HeldCycles.PauseOwedAfterNine | src/core/device/ap_3c505.c:292-303 | Out of burst mode the pause is owed from the ninth byte on and not before; in burst mode never. |
| HeldCycles.CardCounts | src/core/board/ap_board.c:1281-1318 | Only the card's own bytes are counted, and its own terminal count makes it done and its line down. |
| HeldCycles.CardByte | src/core/board/ap_board.c:1267-1318 | End to end on a held clock: a byte of the card's is one more since the pause, and the last of a block leaves it done. |
| HeldCycles.CascadeSparesCard | src/core/board/ap_board.c:1267-1318 | A byte moved through the cascade leaves the card's count alone. |
| BusRuns.BusConserved | src/core/board/ap_board.c:1252-1290 | Over every run, held clocks equal transfers times max(T, 1), less the clocks the transfer in flight still has to run, plus the held clocks that started nothing; hence the promised lower bound. |
| BusRuns.RefreshIsExact | src/core/board/ap_board.c:1119-1137 | Over every run, refresh has stolen exactly floor(n / I) of n clocks and stands on the present one exactly when I divides n, whatever DMA does; a stolen clock is lost to the processor. |
| GuardedPoll.SkipIsExact | src/core/board/ap_board.c:1176-1252 | For one clock: the skipped poll leaves no trace if and only if a poll would have found nothing, read off the board beforehand. |
| GuardedPoll.GuardInvKept | src/core/board/ap_board.c:1139-1252 | Whenever the flag is down, no request stands anywhere but on the adapter's own pin. |
| GuardedPoll.PolledFallsQuiet | src/core/board/ap_board.c:1208-1252 | The poll that lets the flag fall has seen every device line down and no software request. |
| GuardedPoll.GuardInvisibleIff | src/core/board/ap_board.c:1139-1252 | Over every run and every event, the device reset that leaves the flag alone included: the board that skips and the board that always polls agree throughout if and only if every skipped clock was quiet. |
| GuardedPoll.GuardInvisibleWhenTame | src/core/board/ap_board.c:1139-1252 | On every run that keeps to the stated assumption (devices at rest stay so until reached, an undriven adapter, no poll taking a demand-mode pause), skipping is invisible. |
| GuardedPoll.FlagDownIsFinal | src/core/board/ap_board.c:1139-1252 | With the flag down, clocks alone never run another transfer, however many. |
| GuardedPoll.DemandPauseStallsGuard | src/core/board/ap_board.c:1208-1252 | The case the assumption must exclude: the poll that pays the 802.3 card's own pause lets the flag fall while the card asks again at once, and no later clock moves a byte. |
| GuardedPoll.AdapterPinIsLoud | src/core/board/ap_master.c:28-93 | The other case: an adapter on channel 0 or 3, its pin up and unmasked with the flag down, is a clock whose skipped poll does leave a trace. |
| BusObject.CoreBoard.constructor | src/core/board/ap_board.c:1756-1770 | A board at reset: invariant, poll armed, counters zero. |
| BusObject.CoreBoard.ProcessorMayRun | src/core/board/ap_board.c:1639-1647 | Both ways of losing the bus, in one answer. |
| BusObject.CoreBoard.CountRefresh | src/core/board/ap_board.c:1119-1137 | The refresh count in place is the refresh step of the clock. |
| BusObject.CoreBoard.Countdown | src/core/board/ap_board.c:1119-1137 | A cycle is stolen exactly as the countdown expires, and the interval is then reloaded. |
| BusObject.CoreBoard.FindRequest | src/core/board/ap_board.c:1208-1252 | The poll's own part: pins driven, the second controller's highest channel found, the DMA line driven by it, and the flag left up exactly while something could still ask. |
| BusObject.CoreBoard.DrivePins | src/core/board/ap_board.c:1176-1234 | Every device pin driven and the cascade between the controllers resolved, in the source's order. |
| BusObject.CoreBoard.PollDma | src/core/board/ap_board.c:1176-1252 | The poll in place refines the poll function and returns the selected channel. |
| BusObject.CoreBoard.Hold | src/core/board/ap_board.c:1252-1290 | A clock with the DMA line as master, in place. |
| BusObject.CoreBoard.Tick | src/core/board/ap_board.c:1119-1320 | The clock as the source has it, in place, refines the clock function and keeps the invariant. |
| BusObject.CoreBoard.Ticks | src/core/board/ap_board.c:1084-1117 | A batch of clocks is that many single clocks. |
| CacheRam.FillThenLookup | src/core/board/ap_cacheram.c:81-115 | Filling an address makes it the hit with that value, evicts every other tag of its index and touches no other index. |
| CacheRam.NoHits | src/core/board/ap_cacheram.c:81-119 | An invalidated cache hits nowhere and an absent one never does. |
| CacheRam.HitIsWindow | src/core/board/ap_cacheram.c:30-98 | A hit is the four bytes read through the data window, most significant first. |
| CacheRam.WindowReadsBack | src/core/board/ap_cacheram.c:30-58 | A byte written in a window is read back there and no other changes; outside it nothing is written and a read is all ones. |
| CacheRam.DoKeepsCoherent | src/core/board/ap_cacheram.c:37-119 | Every operation, the byte-wise drop of one entry included, keeps each valid entry equal to the longword its tag and index name. |
| CacheRam.HitsAgreeWithMemory | src/core/board/ap_cacheram.c:60-119 | Never stale: after any run of writes, miss fills, invalidations and drops, every hit equals memory at that longword. |
| CacheRam.CacheRam.WriteData | src/core/board/ap_cacheram.c:37-43 | A byte into the data window; addresses outside it write nothing. |
| CacheRam.CacheRam.WriteCc | src/core/board/ap_cacheram.c:52-58 | A byte into the condition-code window. |
| CacheRam.CacheRam.CcWord | src/core/board/ap_cacheram.c:60-67 | The condition-code word assembled from its four bytes; zero past the last entry. |
| CacheRam.CacheRam.Look | src/core/board/ap_cacheram.c:81-98 | The lookup refines the lookup function. |
| CacheRam.CacheRam.FillFrom | src/core/board/ap_cacheram.c:100-115 | The fill in place refines the fill function. |
| CacheRam.CacheRam.InvalidateAll | src/core/board/ap_cacheram.c:117-119 | Clears every condition-code byte. |
| TranslationMap.PhysicalIs | src/core/board/ap_board.c:952-973 | What a DMA address reaches without the masks: its page's entry and its offset; always below 26 bits, even for 16-bit channels. |
| TranslationMap.TranslateIs | src/core/board/ap_atmap.c:88-95 | The mask to 26 bits never bites. |
| TranslationMap.InjectiveIffDistinct | src/core/board/ap_atmap.c:37-95 | No two DMA addresses of a channel's 64 KB or 128 KB window meet exactly when its reachable entries are distinct. |
| TranslationMap.ContiguousIffConsecutive | src/core/board/ap_atmap.c:37-95 | The window is one run of memory from the first entry's page exactly when the reachable entries are consecutive. |
| TranslationMap.ProgramEntry | src/core/board/ap_board.c:2282-2303 | Two byte writes in either order store the whole page, disturb no other entry and read back lane by lane. |
| TranslationMap.ProgrammedIs | src/core/board/ap_atmap.c:114-133 | Every entry the machine has is programmed at its own address and moves no other. |
| TranslationMap.UpperHalf | src/core/board/ap_atmap.c:114-123 | Entries 1024 to 2047 are storage of their own on a DS5500 and the lower half again on the others. |
| TranslationMap.ProgramWindowPage | src/core/board/ap_board.c:952-973 | Programming a window page moves exactly the DMA addresses of that page and no bus master's. |
| TranslationMap.ProgramMasterPage | src/core/board/ap_atmap.c:37-64 | Programming a bus master's page moves exactly its addresses and no DMA channel's. |
| TranslationMap.AtMap.Write | src/core/board/ap_atmap.c:118-133 | Stores one entry, wrapped in the machine's own count. |
| TranslationMap.AtMap.Read | src/core/board/ap_atmap.c:118-129 | Reads the same entry. |
| TranslationMap.AtMap.WriteLane | src/core/board/ap_board.c:2282-2303 | The board's read-modify-write of one byte lane. |
| CoreRegisters.WordWriteIsTwoBytes | src/core/board/ap_boardreg.c:377-425 | A word write and its two byte writes leave the same machine, but for the tally of posts. |
| CoreRegisters.WordReadIffTwoBytes | src/core/board/ap_boardreg.c:262-307 | A word read agrees with its two byte reads except at master request, task alias and memory present, where it does exactly when they are zero. |
| CoreRegisters.ConditionHistory | src/core/board/ap_boardreg.c:152-176 | Over every history: a condition reads set exactly when it was latched and no clearing event for it has come since. |
| CoreRegisters.SwitchHistory | src/core/board/ap_boardreg.c:458-464 | Bit 0 is the last switch setting through every write and clear, when no latch names it; bit 15 never falls. |
| CoreRegisters.ParityHistory | src/core/board/ap_board.c:748-770 | Level 7 is asserted exactly when a parity condition stands and the control register enables it, over every history. |
| CoreRegisters.WriteStatus | src/core/board/ap_boardreg.c:309-324 | What any bus write does to the status register, wherever it lands. |
| CoreRegisters.StatusReads | src/core/board/ap_boardreg.c:262-307 | Each condition is read in its own bit, by word and by the byte lane it lies in; bit 15 is always set. |
| CoreRegisters.SelectiveClears | src/core/board/ap_boardreg.c:150-176 | What each of the four selective clears leaves standing, the parity interrupt included; any other address of the range clears nothing. |
| CoreRegisters.CacheRegister | src/core/board/ap_boardreg.c:262-360 | Every bit of the cache register after a write, on both kinds of board, in both lanes. |
| CoreRegisters.WrittenReads | src/core/board/ap_boardreg.c:262-375 | What a word written to each register is read back as. |
| CoreRegisters.PostedIsCollapsedStream | src/core/board/ap_boardreg.c:440-456 | The log is the first thirty-two of everything posted with runs of one code collapsed; the tally counts every post. |
| CoreRegisters.CollapseIsTight | src/core/board/ap_boardreg.c:440-456 | No two neighbours of the collapsed stream are equal. |
| CoreRegisters.LowByteNeverPosts | src/core/board/ap_boardreg.c:413-424 | Once one code is posted, low-byte writes to the control register never extend the log. |
| CoreRegisters.BoardReg.Post | src/core/board/ap_boardreg.c:440-456 | The posting in place. |
| CoreRegisters.BoardReg.LatchStatus | src/core/board/ap_boardreg.c:466-468 | Latching in place. |
| CoreRegisters.BoardReg.SetNormalMode | src/core/board/ap_boardreg.c:458-464 | The switch in place. |
| CoreRegisters.BoardReg.Put | src/core/board/ap_boardreg.c:309-375 | The store in place. |
| CoreRegisters.BoardReg.WriteWord | src/core/board/ap_boardreg.c:377-390 | The word write in place. |
| CoreRegisters.BoardReg.WriteLane | src/core/board/ap_boardreg.c:392-425 | The byte write in place, lanes merged. |
| AddressDecode.Locate | src/core/board/ap_board.c:421-446 | The two scans give the first row that matches in the table followed by the variant's rows. |
| DeviceDecode.RowDecides | src/core/board/ap_board.c:421-446 | The row that holds an address decides it on every board, and the device is given the row's own address plus the offset in the row. |
| DeviceDecode.InStep | src/core/board/ap_board.c:421-446 | Neighbouring addresses of a row are neighbours in the device. |
| DeviceDecode.EveryPlaceAnswers | src/core/board/ap_board.c:2003-2044 | On every board, whatever is placed, the module of the device named answers at the address it is handed. |
| DeviceDecode.PlacedAtHome | src/core/board/ap_board.c:17-52 | On the Series 4000 boards every device is handed the machine's own address. |
| DeviceDecode.SerialPorts | src/core/board/ap_board.c:65-107 | A DS3000 has one serial part, seen four times over its kilobyte; the others have two, side by side: unit and register of every address. |
| DeviceDecode.DmaControllers | src/core/board/ap_dma.c:8-30 | Both DMA controllers' registers at every address of the three boards' blocks, a byte apart and a word apart. |
| DeviceDecode.MovedDevices | src/core/board/ap_board.c:65-107 | Unit and register behind every address of the DS3000's other devices. |
| AddressDecode.OrderInvisibleIff | src/core/board/ap_board.c:421-480 | The rows of any table can be tried in any order, with the same answer everywhere, if and only if rows that overlap agree. |
| AddressDecode.MapsAreApart | src/core/board/ap_board.c:17-383 | On each of the five board maps no two rows overlap, main memory and the graphics windows included. |
| AddressDecode.WholeBlocks | src/core/board/ap_board.h:66-104 | How much memory each board has and where it starts; the AT windows by the address bits above their 128-kilobyte blocks. |
| AddressDecode.RowsAreBlocks | src/core/board/ap_board.c:17-383 | Every placement is whole 256-byte blocks, in the machine's space and in the device's. |
| AddressDecode.SomeLieAbove | src/core/board/ap_board.c:451-456 | Not every placement lies below memory: one row of the DS5500 and one graphics window on a DS3000 lie above it. |
| AddressDecode.TestsCommute | src/core/board/ap_board.c:448-504 | So on every board memory, table and graphics windows may be tried in any order. |
| AddressDecode.RegionIsOrderFree | src/core/board/ap_board.c:448-547 | The region reported is what those tests say in whatever order, with the fitted cards and the AT bus behind them. |
| AddressDecode.RamIsNotPlaced | src/core/board/ap_board.c:1994-2003 | A memory address is placed nowhere, so the memory arm sees it unchanged. |
| AddressDecode.RamLaterIff | src/core/board/ap_board.c:448-547 | The memory test could move behind every fitted card; moved behind the AT windows it changes the answer exactly on a DS3000 memory address. |
| AddressDecode.RamIsNoPort | src/core/board/ap_board.c:2736-2763 | An access beginning in memory never takes a word-wide port, although the ports are tried before the ignored address bits are dropped. |
| MainMemory.Consecutive | src/core/board/ap_board.c:2765-2776 | Successive byte cycles of an in-memory access stand at successive offsets, address wrap included. |
| MainMemory.StoreEffect | src/core/board/ap_board.c:2379-2391 | Every byte of memory and parity after a store: the named fitted bytes and no others; answered exactly when all are fitted, otherwise a bus error stands. |
| MainMemory.LoadEffect | src/core/board/ap_board.c:2130-2143 | Every effect of a load: the bytes, all ones where unfitted, exactly the conditions raised, the page latched, and nothing else. |
| MainMemory.StoreAnywhere | src/core/board/ap_board.c:2765-2776 | A store that touches memory anywhere, running past its end included: each byte that falls on fitted memory is stored there and no other byte of memory moves. |
| MainMemory.StoreAnswered | src/core/board/ap_board.c:2765-2776 | It is answered exactly when every byte cycle of it was. |
| MainMemory.LoadAnywhere | src/core/board/ap_board.c:2803-2853 | A load anywhere brings what stands at each byte, all ones where nothing does, is answered exactly when something stands at every one, and leaves memory as it was. |
| MainMemory.NeighboursArePlain | src/core/board/ap_board.c:2736-2776 | Beside an access that touches memory lie only the AT bus, its Matrox board and nothing; it takes no word-wide port. |
| MainMemory.BigEndian | src/core/board/ap_board.c:2765-2776 | The bytes a value is sent as assemble to the value modulo 256 to the width. |
| MainMemory.StoreThenLoad | src/core/board/ap_board.c:2722-2853 | For every fitted in-memory address and width 1 to 4: a store then a load returns the value modulo 256 to the width, whatever parity was forced, and the observer sees the same. |
| MainMemory.PeekIff | src/core/board/ap_board.c:2779-2801 | The observer answers, and answers what a load would, exactly when the load would be answered and the address carries no ignored bits. |
| MainMemory.LoadInterruptsIff | src/core/board/ap_board.c:1926-1929 | With no lane condition standing, a load raises level 7 exactly when it is enabled and some byte of the load is marked bad. |
| MainMemory.MemoryHistory | src/core/board/ap_parity.c:37-64 | Over every run of stores, loads and register traffic each byte is the last one stored, and marked bad exactly when its lane was forced at that store. |
| MainMemory.ForcedLanes | src/core/board/ap_parity.c:20-38 | Which control bit forces bad parity in which lane. |
| MainMemory.BoardMemory.WriteByte | src/core/board/ap_board.c:2379-2391 | The memory arm of the byte write in place. |
| MainMemory.BoardMemory.ReadByte | src/core/board/ap_board.c:2130-2143 | The memory arm of the byte read in place. |
| MainMemory.BoardMemory.WriteAccess | src/core/board/ap_board.c:2722-2777 | The transfer's byte loop in place, for every access that touches memory. |
| MainMemory.BoardMemory.ReadAccess | src/core/board/ap_board.c:2803-2853 | The transfer's byte loop, for every access that touches memory; a size the processor does not have is refused and changes nothing. |
| MainMemory.BoardMemory.PeekRam | src/core/board/ap_board.c:2779-2801 | The observer's loop; no state changes. |
| TransmitRing.RingHistory | src/core/board/ap_board.c:1566-1584 | After every run of shifts and collections: what waits is the newest of what was shifted; collected, waiting and lost add up to it; nothing is collected twice or out of order. |
| TransmitRing.LosslessIff | src/core/board/ap_board.c:1566-1584 | Collected and waiting together are everything shifted out exactly when the ring was never full at a shift. |
| TransmitRing.Ring.ShiftOut | src/core/board/ap_board.c:1566-1584 | Appends, dropping the oldest from a full ring. |
| TransmitRing.Ring.Transmitted | src/core/board/ap_board.c:2657-2668 | Takes the oldest, or nothing from an empty ring. |
| EmptySlots.ListIsFirstDistinct | src/core/board/ap_board.c:1939-1950 | The list is the first sixteen distinct addresses in first-seen order; the dropped tally is of accesses, repeats included, to all others. |
| EmptySlots.EmptyList.NoteAddress | src/core/board/ap_board.c:1939-1950 | The scan and append in place. |
| StateFeed.HeadScalar | src/core/state/ap_hash.c:79-120 | A tagged scalar's first byte settles its width, so equal feeds agree on the first scalar and on the rest. |
| StateFeed.StreamInjective | src/core/state/ap_hash.c:60-120 | Whatever is fed after them, equal feeds mean equal items and equal remainders, as long as what was fed before settles how long the next item is. |
| FeedQueues.PutAppends | src/core/device/ap_kbd.c:369-376 | Putting a byte at head + count, wrapped, joins the end of what is live. |
| FeedQueues.TakeDropsFront | src/core/device/ap_kbd.c:408-420 | Moving the head on leaves what was behind the front, in order. |
| FeedQueues.RingIsQueue | src/core/board/ap_graphics.c:170-197 | Over every history a ring is a plain bounded queue: where its head started and what its spare slots held never show. |
| FeedQueues.SameHistory | src/core/board/ap_board_state.c:923-927 | Two rings that start empty hold the same after the same history, whatever their heads and slots. |
| FeedQueues.AscFeedsAlike | src/core/device/ap_wd7000.c:151-193 | Two SCSI interrupt queues that feed alike feed alike after every history of interrupts and acknowledgements, from any heads and any stale slots. |
| FeedQueues.KeyStepsLive | src/core/device/ap_kbd.c:350-427 | Keys, answers and transmissions act on what is fed: at most sixteen key bytes and sixty-four answer bytes, one line in order of arrival, each sender's allowance its own bytes queued. |
| FeedQueues.KeyboardFeedsAlike | src/core/device/ap_kbd.c:350-427 | Two keyboards that feed alike feed alike after every such history. |
| FeedQueues.DisplayFeedsAlike | src/core/board/ap_graphics.c:170-220 | Two displays likewise, over every history of their palette bytes. |
| StateFeed.Hash.Bytes | src/core/state/ap_hash.c:60-84 | The running hash is the digest of exactly the bytes absorbed. |
| StateFeed.Hash.RingBytes | src/core/board/ap_board_state.c:918-930 | A ring's live bytes, from its head, and no stale slot. |
| StateFeed.Hash.Prefix | src/core/board/ap_board_state.c:1084-1087 | A buffer's occupied part, never past its end. |
| DeviceFeeds.SerialExact | src/core/board/ap_board_state.c:284-312 | Two serial channels, each with anything fed after it, feed alike if and only if their live registers and queued characters are equal and so is what follows. |
| DeviceFeeds.ReadKeepsFeedIff | src/core/device/ap_mc68681.c:691-758 | Two channels that feed alike still do after a read if and only if what waits behind the queue and its error flags were alike, which the feed does not say. |
| DeviceFeeds.ReadLeaves | src/core/device/ap_mc68681.c:691-738 | What a read of the data register leaves: the characters behind and the one that waited, ready and full by what is left, and the error bits of character or block mode. |
| DeviceFeeds.FeedHidesWaiting | src/core/device/ap_mc68681.c:691-758 | Two channels that feed alike and feed differently after one read. |
| DeviceFeeds.AscExact | src/core/board/ap_board_state.c:577-590 | The same for the SCSI adapter's interrupt queue, with whatever follows: rotation and stale slots never matter. |
| DeviceFeeds.KeyboardExact | src/core/board/ap_board_state.c:881-956 | The same for the keyboard, with whatever follows: keys, modes, queued bytes with their senders, deadlines. |
| DeviceFeeds.TapeExact | src/core/board/ap_board_state.c:662-693 | The same for the tape's buffers, with whatever follows: an invalid buffer never matters. |
| DeviceFeeds.CardExact | src/core/board/ap_board_state.c:1049-1075 | The same for the 802.3 card, with whatever follows. |
| DeviceFeeds.AdapterExact | src/core/board/ap_board_state.c:1079-1170 | The same for its adapter, with whatever follows: all five variable-length buffers. |
| DeviceFeeds.StationExact | src/core/board/ap_board_state.c:1172-1253 | The same for the ring station, with whatever follows: lent buffers present or absent. |
| DeviceFeeds.FeedSerial | src/core/board/ap_board_state.c:284-312 | The serial feeder absorbs exactly that encoding. |
| DeviceFeeds.FeedAsc | src/core/board/ap_board_state.c:577-590 | The interrupt-queue feeder absorbs exactly that encoding. |
| DeviceFeeds.FeedKeyboard | src/core/board/ap_board_state.c:881-956 | The keyboard feeder absorbs exactly that encoding. |
| DeviceFeeds.FeedTape | src/core/board/ap_board_state.c:662-693 | The tape feeder absorbs exactly that encoding. |
| DeviceFeeds.FeedCard | src/core/board/ap_board_state.c:1049-1075 | The card feeder absorbs exactly that encoding. |
| DeviceFeeds.FeedAdapter | src/core/board/ap_board_state.c:1098-1170 | The adapter feeder absorbs exactly that encoding. |
| DeviceFeeds.FeedStation | src/core/board/ap_board_state.c:1172-1253 | The station feeder absorbs exactly that encoding. |
| DisplayFeed.DisplayExact | src/core/board/ap_board_state.c:696-774 | The same for the display, with whatever follows: frame buffers of any size, registers, the palette bytes waiting in their ring, both palettes and the blitter's carried state. |
| DisplayFeed.FeedDisplay | src/core/board/ap_board_state.c:696-774 | The display feeder absorbs exactly that encoding. |
| DisplayFeed.FeedRows | src/core/board/ap_board_state.c:753-760 | A palette row by row is its bytes in order. |
| WholeFeed.EthernetExact | src/core/board/ap_board_state.c:1049-1076 | The card and the adapter fed straight after it, together. |
| WholeFeed.SectionExact | src/core/board/ap_board_state.c:1258-1318 | Any one part of the board's feed, with whatever is fed after it. |
| WholeFeed.FeedExact | src/core/board/ap_board_state.c:1258-1318 | Any number of parts absorbed one after another into one accumulator, in any order: the bytes are equal if and only if every part's live state is. |
| WholeFeed.WholeFeedExact | src/core/board/ap_board_state.c:1258-1318 | The whole board in its own order: two boards of one model with the same cards absorb the same bytes if and only if the live contents of all four serial channels, the tape, the SCSI queue, the display, the keyboard, the 802.3 card with its adapter and the ring station are equal, and everything fed between them. |
| WholeFeed.FeedEthernet | src/core/board/ap_board_state.c:1049-1076 | The card's feeder and then the adapter's absorb exactly that part. |
| WholeFeed.FeedPort | src/core/board/ap_board_state.c:314-348 | The two channels of a serial part and its registers, into one accumulator. |
| CodeTracer.ReachableIsUnique | tools/ring-rom/disasm.py:307-332 | There is one least set of offsets holding the traceable roots and closed under in-range even targets and fall-through. |
| CodeTracer.PathIsReachable | tools/ring-rom/disasm.py:307-332 | Every end of a path of control flow from a root is in it. |
| CodeTracer.ReachableHasPath | tools/ring-rom/disasm.py:307-332 | And every offset in it is the end of such a path. |
| CodeTracer.WaysIn | tools/ring-rom/disasm.py:307-332 | An offset is in the set exactly when it is an even offset of the image and a root, or an instruction of the set targets it or runs on into it. |
| CodeTracer.NewLabels | tools/ring-rom/disasm.py:322-329 | A new label names its own address and is a subroutine's or a location's by an instruction that targets it. |
| CodeTracer.Follow | tools/ring-rom/disasm.py:314-332 | Visiting an instruction owes exactly its targets and its fall-through. |
| CodeTracer.Listing.NoteTargets | tools/ring-rom/disasm.py:322-329 | Queues exactly the in-image targets, adds exactly their references and labels only new ones. |
| CodeTracer.Listing.Visit | tools/ring-rom/disasm.py:316-329 | Records one offset and keeps the record exact. |
| CodeTracer.Listing.Trace | tools/ring-rom/disasm.py:307-332 | For every decoder and root list it ends; the offsets seen are that least set, and the references added are exactly the reached instructions' own. |
| TapeRecords.BlockRoundTrip | tools/ct_extract.py:199-226 | A written block reads back as its records, checked or not. |
| Words.FirstByteDecides | tools/ct_extract.py:212-218 | Words and longwords are big-endian: of two, the first byte that differs decides which is larger. |
| TapeRecords.FileRoundTrip | tools/ct_extract.py:199-226 | So does a file of blocks anywhere in an image. |
| TapeRecords.TapeRoundTrip | tools/ct_extract.py:199-226 | Any record list a block could hold one at a time survives packing, writing and reading, in order and complete. |
| TapeRecords.VerifiedBlockIsCovered | tools/ct_extract.py:209-226 | A checked block's used bytes are its records' encodings end to end, up to pad values, and nothing else. |
| TapeRecords.BlockFaults | tools/ct_extract.py:207-214 | Exactly when a block is too short, claims an impossible number of bytes, or is passed over as filler. |
| TapeRecords.CheckingOnlyRefuses | tools/ct_extract.py:199-226 | Over a whole tape file: reading with the check either agrees with reading without it, faults and all, or stops at a block with bytes left over, having read a prefix of the same records. |
| TapeRecords.ScanBlock | tools/ct_extract.py:213-226 | The cursor loop over one block refines the grammar. |
| TapeRecords.Records | tools/ct_extract.py:199-226 | The loop over a file refines it block by block, faults included. |
| TapeObjects.FilteredRefinesFull | tools/ct_extract.py:229-267 | Whenever extraction without a predicate succeeds, extraction with any predicate succeeds and yields exactly the accepted objects, in order, with the same contents. |
| TapeObjects.FilteredExtraction | tools/ct_extract.py:229-267 | The same over a tape file: any predicate yields exactly the accepted objects of a successful full extraction. |
| TapeObjects.CheckedExtraction | tools/ct_extract.py:199-267 | What a checked extraction of a tape file yields without trouble, the unchecked one yields too. |
| TapeObjects.BodyAssembles | tools/ct_extract.py:239-258 | An open object is its opening record's names, the last attributes and all the data so far in order. |
| TapeObjects.RecordFields | tools/ct_extract.py:239-254 | Where an object's identifier, path, length and block count lie in its records. |
| TapeObjects.WholeObject | tools/ct_extract.py:161-165 | An object is added, complete, exactly when it had attributes whose length its data fills in whole 1024-byte blocks. |
| TapeObjects.YieldedAreWhole | tools/ct_extract.py:161-165 | Every object ever yielded is wanted and whole: its data is its length made up to a multiple of 1024 bytes. |
| TapeObjects.Extract | tools/ct_extract.py:229-267 | The reassembly loop refines the record-by-record function. |
| TapeObjects.Objects | tools/ct_extract.py:229-267 | Extraction over a tape file: objects, then whichever trouble came first. |
| BlockLayout.Partition | tools/awd_read.py:236-249 | A sector is part of block d exactly when it is not spare and maps back to d; a cylinder's spare sectors are its last c mod s. |
| BlockLayout.NoStraddle | tools/awd_read.py:242-249 | No block straddles a cylinder. |
| BlockLayout.Increasing | tools/awd_read.py:242-249 | Later blocks lie wholly after earlier ones. |
| BlockLayout.DisjointIffSound | tools/awd_read.py:236-249 | For every geometry, blocks never share a sector exactly when blocks are single sectors or a cylinder holds one. |
| DirectoryHeap.WalkIsContiguous | tools/awd_read.py:537-568 | For every block the walk ends, reads inside the block, and its entries lie end to end. |
| DirectoryHeap.ContiguousIsDisjoint | tools/awd_read.py:537-568 | So no two entries overlap. |
| DirectoryHeap.EntryReads | tools/awd_read.py:545-566 | An entry written at an offset is the entry found there, every field and both texts. |
| DirectoryHeap.EntryIsTight | tools/awd_read.py:545-552 | An entry is its fixed part and its two texts and fewer than four bytes of padding. |
| DirectoryHeap.LinkEntries | tools/awd_read.py:548-566 | Links are type 4, deleted or not, and they alone name no volume entry. |
| DirectoryHeap.DirectoryRoundTrip | tools/awd_read.py:537-568 | Any list of entries with some text, written to end at the block's end, walks back as that list, flags and links included. |
| DirectoryHeap.PlacedKeeps | tools/awd_read.py:545-566 | The entries that come back differ from those written only in the offsets the walk gives them. |
| DirectoryHeap.DirEntries | tools/awd_read.py:537-568 | The cursor loop refines the walk. |
| TableWalk.SameIndex | tools/oracle_walk.py:96-174 | Two addresses in one page index every table of the walk alike. |
| TableWalk.PageUniform | tools/oracle_walk.py:85-174 | For every RAM image and every enabled control with IS + sum TI + PS at most 32, two addresses in one page both fail alike or land in one frame. |
| TableWalk.OffsetKept | tools/oracle_walk.py:96-174 | Whatever the tables say, a translated address keeps its offset in the page. |
| TableImages.WalkReads | tools/oracle_walk.py:85-174 | On any RAM that holds a tree of tables, short and long formats mixed, the walk finds what the tree says: frame plus offset through pages, early pages and indirection, a failure at an invalid entry. |
| TableImages.WrittenHolds | tools/oracle_walk.py:78-82 | Longwords written to distinct places of RAM are all read back. |
| TableImages.EarlyPageAgreesIff | tools/oracle_walk.py:144-152 | The walk and the emulated processor agree on an address under an early page exactly when the index bits the page leaves unread are zero in it. |
| PageMaps.DrawingPlaced | tools/oracle_walk.py:96-174 | The tables drawn for any page map keep to the room reckoned for them and use no longword twice. |
| PageMaps.DrawingSays | tools/oracle_walk.py:122-126 | Index by index is page by page. |
| PageMaps.MapWalks | tools/oracle_walk.py:96-174 | The round trip: any page map, in any format for each level below a short root, written into any RAM with room for it, is walked back: frame plus offset for every mapped address, a failure for every other. |
| PageMaps.ControlDecodes | tools/oracle_walk.py:85-93 | The fields of a translation control register come back from it. |
| TableWalk.WalkTables | tools/oracle_walk.py:96-174 | The loop over levels refines the recursive walk. |
| PngFilter.RowRoundTrip | tools/mame-oracle/pngcmp.py:24-44 | Un-filtering a filtered row restores it, for every filter type, pixel size and row above. |
| PngFilter.LineRoundTrip | tools/mame-oracle/pngcmp.py:24-44 | Filtering a restored row gives the line back, so no two lines restore to one row. |
| PngFilter.FilterAdds | tools/mame-oracle/pngcmp.py:28-41 | What each filter type adds back: left, above, their mean rounded down, Paeth's nearest of three with its order of ties, or nothing. |
| PngFilter.TopRow | tools/mame-oracle/pngcmp.py:24-26 | Above the first row there is nothing. |
| PngFilter.ImageRoundTrip | tools/mame-oracle/pngcmp.py:24-44 | Every image, with any choice of filter per row and anything after its last row, is restored row for row. |
| PngFilter.UnfilterRow | tools/mame-oracle/pngcmp.py:28-41 | One row un-filtered in its own array. |
| PngFilter.Unfilter | tools/mame-oracle/pngcmp.py:24-44 | Row after row of the stream, copied out end to end; what follows the last row is ignored. |
| RomAliases.LeadsToOne | tools/mame-oracle/romset.py:125-137 | However far it is followed, a name leads to one set at most. |
| RomAliases.ResolvedIsUnique | tools/mame-oracle/romset.py:125-137 | The resolved table does not depend on the order of the aliases. |
| RomAliases.CyclesStayAbsent | tools/mame-oracle/romset.py:125-137 | A name on a cycle of undefined aliases stays absent. |
| RomAliases.Pass | tools/mame-oracle/romset.py:128-137 | A pass either finds nothing to do, and then nothing ever will be, or resolves an alias; no set is overwritten. |
| RomAliases.Resolve | tools/mame-oracle/romset.py:125-137 | Within one pass more than there are aliases, exactly the names whose chain reaches a defined set have that set's list, and no defined set has changed. |

## Left out

- Counters are unbounded: `region_reads`, `ticks`, `held`, `transfers` and the others do not wrap at their C widths.
- Reactions of the tape, the disks and the display to a DMA byte: any change of their lines is allowed on a transfer, and only the 802.3 card's own burst accounting is fixed.
- A DMA transfer whose translated address reaches a board register, and so could reprogram a controller from inside a transfer: the byte goes to memory or a device, never to the register file.
- BusRuns.Apply: software reaching a DMA-capable region may set both controllers and all devices to anything, which is more than the byte-wide register writes can do; `Dma8237` has those.
- `ap_board_interrupt_next_change` and the interrupt sample bound: every bound comes from device code.
- The word-wide disk data port and display memory arms of the access functions, which go to devices; `AddressDecode.RamIsNoPort` shows no access beginning in memory takes one.
- MainMemory.BoardMemory.ReadAccess: covers accesses with at least one byte in the space given to memory; what answers its other bytes, the AT bus or nothing, is a parameter.
- MainMemory.BoardMemory.WriteAccess: the same.
- The parity bitmap's packing of eight flags to a byte: one boolean per byte of memory. Its tallies (`forced_writes`, `errors`) are left out.
- Names of scopes fed to the hash, which are constants, and the hash's own collisions: the theorems are about the bytes absorbed.
- `size_t` fields of the ring station are taken as 32 bits, as the feeder casts them.
- WholeFeed.WholeFeedExact: what is fed between the modelled parts is any sequence of items whose form is settled by what came before; the EXB-8200 feeder, whose last run's length is not fed, is not of that kind, so a board with that drive is not covered.
- DisplayFeed.DisplayExact: display memory is attached wherever its extent is not zero, as both frontends do.
- FeedQueues.AscStep: which incoming box an acknowledgement frees is the event's to say; the status byte shown is fed apart from the queue.
- TranslationMap.AtMap.constructor: entry counts between the three the board uses are not modelled.
- The tapes' `read_labels` and the printing, argument parsing and file handling of every tool.
- Python exceptions: each is a result value, and a generator is the sequence it yields with how it ended.
- The instruction decoder of the code tracer is any function from an offset to an optional instruction; `linear` and `string_runs` are left out as single passes.
- TableWalk.WalkTables: the trace text the walk prints is not modelled.
- PngFilter.Unfilter: a stream shorter than its rows, where the tool raises; and the PNG container around it.
- `vtocx`, `vtoc_entry` and the volume labels: fixed field positions, easy members.
- Reading the driver source for the alias table: the table is a map, in any order.
- The transmitters' character clock: when a byte is shifted out is the caller's event.
