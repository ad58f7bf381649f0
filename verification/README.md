# A Dafny model of the RISC-V virtual prototype

The virtual prototype simulates RV32 and RV64 harts, their MMU, the bus that connects several harts with memory and
peripherals, and the peripherals themselves. Harts are cooperative SystemC threads, so a system is modelled as steps
between the points where a thread yields, and its properties are proved for every interleaving, every run and every input.

`dafny verify dfyconfig.toml` checks the project.

| files | what they model |
|---|---|
| `Wrappers`, `Bits`, `PageTable`, `VmSpec`, `Tlb`, `Mmu` | the page walk that writes accessed and dirty bits back, the translation process of the privileged architecture stated without it, the translation cache in front of it, and the object that runs both |
| `BusProtocol`, `BusInterface` | the bus lock behind LR/SC and AMO, with any number of harts and lock-respecting peripherals |
| `TrapMachine`, `TrapProofs`, `TrapRuns`, `Iss` | interrupt selection, delegation, trap entry, xRET, the CSR writes that steer them, one turn of the instruction loop, and nested handlers over runs |
| `Clint`, `Uart`, `Plic` | timer deadlines, the two UART queues with their semaphores, interrupt claims |
| `Instr`, `RvcIsa`, `RvcFields`, `Rvc`, `RvcDecode`, `AluLaws` | compressed instructions: decoders, expansion and execution against chapter 16 of the Unprivileged ISA 20191213, and the laws of the arithmetic that both use |
| `MulDiv` | the M extension on 32 and 64 bits |
| `ByteSeq`, `Slip`, `Flash`, `Dma` | the SLIP codec, the one-block flash cache, the chunked DMA copy |

Pure code is a function with lemmas; code that updates fields or arrays is a class whose methods are proved against those
functions. Memory of the MMU and the bus is a map from word numbers or addresses to words, flag registers are sets of bit
positions, and register arithmetic wraps explicitly. The bit fiddling of instruction words uses 32-bit vectors.

## Where the code and its promise part

Each of these is proved as an exact condition, with a case where the promise fails.

- A cached translation keeps 32 bits of the physical page (`Tlb.CacheAgreesWithWalk`, `Mmu.CacheLosesHighBits`).
- The lock assertion of an AMO fails exactly when the translation of its load stores a page table entry
  (`BusProtocol.AmoAssertionIff`, `BusProtocol.AmoAborts`). When the translation of its store does, the assertion has passed
  already and the store goes out without the lock, so that an update of another master is lost in silence
  (`BusProtocol.AmoIsAtomicIff`, `BusProtocol.AmoLosesUpdate`). A store-conditional has the same fault
  (`BusProtocol.ScIsAtomicIff`, `BusProtocol.ScOverwrites`).
- A trap taken at the level of the handler it interrupts replaces that handler's return state
  (`TrapRuns.HandlerRestoresIff`, `TrapRuns.NestedTrapLoses`).
- The timer keeps every deadline, since a wake-up that wraps around 64 bits comes early. But a comparand a multiple of 2^58
  ticks ahead asks for a wake-up at once, and simulated time stands still (`Clint.TimePassesIff`, `Clint.OverflowLivelock`).
- The SLIP decoder takes its last buffered byte for the escape state, so a literal ESC followed by ESC_END or ESC_ESC does
  not survive (`Slip.RoundTrip`).
- The DMA copy is not a memmove (`Dma.MemcpyCorrectIff`); failed block I/O loses flash writes (`Flash.SetPosKeepsFlatIff`).
- C.ADD into register zero, which the ISA makes a hint, is decoded as C.EBREAK (`Rvc.ExpansionMeans`), and the expanded word
  of C.ADDIW is encoded as ADDI, though executed as ADDIW (`RvcDecode.DecoderAgrees`).

## Model

| member | source | states |
|---|---|---|
| `PageTable.SetADOnlyAD` | vp/src/core/common/mmu.h:219-232 | setting the accessed and dirty bits changes no other bit of an entry and makes it need no further update |
| `PageTable.ADIsNotDecisive` | vp/src/core/common/mmu.h:182-231 | two entries equal up to A and D are classified alike and are usable for the same accesses |
| `PageTable.SamePathSameWalk` | vp/src/core/common/mmu.h:164-255 | equal entries up to A and D along a path give walks that end in the same leaf, address or fault |
| `PageTable.SameTablesSameOutcome` | vp/src/core/common/mmu.h:154-255 | A and D never decide a translation: tables equal up to them give equal addresses and faults for every address, access and mode |
| `PageTable.HitIsLoaded` | vp/src/core/common/mmu.h:164-255 | a walk that succeeds names an aligned entry that memory holds and that is usable at its level |
| `PageTable.WriteBackKeepsTables` | vp/src/core/common/mmu.h:219-232 | the A/D store of any walk leaves every translation as it was |
| `PageTable.RepeatedWalk` | vp/src/core/common/mmu.h:154-255 | a walk that succeeds leaves the bits of its leaf set, a repeated walk gives the same answer and stores nothing more, and a walk that faults has stored nothing |
| `VmSpec.WalkFollowsChain` | vp/src/core/common/mmu.h:164-255 | a successful walk has followed a chain of at most one entry per level, selected by the digits of the page number, to a usable leaf |
| `VmSpec.ChainGivesWalk` | vp/src/core/common/mmu.h:164-255 | whenever such a chain exists, the walk finds exactly its leaf |
| `VmSpec.TranslatesIffChain` | vp/src/core/common/mmu.h:145-255 | for every mode, memory, access and address, the walk gives the physical address pa if and only if the address is sign-extended and the digits of its page number lead through pointer entries to a leaf that admits the access and maps the address to pa; digits, entry format, access rules and mapping are stated without the walk |
| `VmSpec.FieldsAreDigits` | vp/src/core/common/mmu.h:166-171 | the indices of the walk, weighted by their place, add up to the translated part of the page number |
| `VmSpec.DigitIsField` | vp/src/core/common/mmu.h:166-171 | those digits are unique: digit i is the index that the walk uses at level i |
| `VmSpec.ChecksAreRules` | vp/src/core/common/mmu.h:184-231 | the checks of the walk are the access rules, read off the bits of the entry |
| `VmSpec.CanonicalIff` | vp/src/core/common/mmu.h:145-152 | the extension check accepts exactly the sign-extended addresses |
| `VmSpec.FaultsAreNamed` | vp/src/core/common/mmu.h:242-252 | an address that does not translate raises the page fault of its access with the address, or a load page fault with the address of an entry that no device answers for |
| `PageTable.StoreOutsideTables` | vp/src/core/common/mmu.h:164-255 | a store to a word that no walk reads changes no translation |
| `PageTable.SuperpageDisplacement` | vp/src/core/common/mmu.h:215-239 | all addresses of one leaf superpage translate, with equal displacement |
| `Tlb.FlushedIsSound` | vp/src/core/common/mmu.h:82-88 | the all-ones sentinel of a flushed cache never hits for any 64-bit address, and a flushed cache is sound for any tables |
| `Tlb.TranslateAnswers` | vp/src/core/common/mmu.h:90-123 | with a sound cache, a translation answers as a fresh walk; a cached answer is the walk's address modulo 2^32, and equals it if and only if that address is below 2^32 |
| `Tlb.TranslateKeepsSound` | vp/src/core/common/mmu.h:90-123 | a translation, with its walk's stores and its refill, keeps every cache entry sound |
| `Tlb.SameTablesKeepSound` | vp/src/core/common/mmu.h:70-123 | replacing memory by one with the same tables keeps every entry sound |
| `Tlb.RunKeepsSound` | vp/src/core/common/mmu.h:86-123 | the cache is sound in every state of every run that starts from a flush |
| `Tlb.CacheAgreesWithWalk` | vp/src/core/common/mmu.h:86-123 | in every such run every translation gives the address or fault of a fresh walk of the current tables, except exactly the cached answers whose address does not fit 32 bits |
| `Mmu.CacheLosesHighBits` | vp/src/core/common/mmu.h:114-120 | with a superpage at 4 GiB, the first access answers 2^32 and the second, from the cache, answers 0 |
| `Mmu.GenericMmu.FlushTlb` | vp/src/core/common/mmu.h:86-88 | every entry becomes the sentinel, nothing else changes |
| `Mmu.GenericMmu.WriteSatp` | vp/src/core/rv64/iss.cpp:1389-1398 | an unimplemented mode keeps the old one, so the walk never meets a mode it does not know; with TVM set the write is illegal and changes nothing |
| `Mmu.ModesAsNamed` | vp/src/core/common/mmu.h:125-143 | every mode translates the number of address bits in its name, its tables fill one page, and its root is the page that satp names |
| `Mmu.GenericMmu.CheckVaddrExtension` | vp/src/core/common/mmu.h:145-152 | accepts exactly the canonical addresses of the regime |
| `Mmu.GenericMmu.CheckLeaf` | vp/src/core/common/mmu.h:186-231 | the leaf checks in order accept exactly the usable leaves |
| `Mmu.GenericMmu.VisitLevel` | vp/src/core/common/mmu.h:164-231 | one turn of the walk loop unrolls the recursive translation once |
| `Mmu.GenericMmu.FindLeaf` | vp/src/core/common/mmu.h:164-255 | the walk loop ends within the level count with what the recursive translation of section 4.3.2 of the Privileged Architecture v1.11 defines |
| `Mmu.GenericMmu.WalkTables` | vp/src/core/common/mmu.h:164-255 | memory changes by the prescribed A/D store and by nothing else |
| `Mmu.GenericMmu.Walk` | vp/src/core/common/mmu.h:154-255 | the address or fault, with its cause and value, is the one of the recursive translation |
| `Mmu.GenericMmu.TranslateVirtualToPhysical` | vp/src/core/common/mmu.h:90-123 | the object takes exactly one step of the cached translation machine |
| `BusProtocol.StepKeepsInv` | vp/src/core/rv32/mem.h:80-205 | every step of every hart and peripheral keeps the relation between lock, stages, countdowns and in-flight AMOs |
| `BusProtocol.RunKeepsInv` | vp/src/platform/common/bus.h:92-135 | that relation holds in every state of every interleaving |
| `BusProtocol.ReservationIntact` | vp/src/core/rv32/mem.h:98-114 | while a reservation stands, nobody has stored anything since the load-reserved that made it |
| `BusProtocol.ScSucceedsOnlyUntouched` | vp/src/core/rv32/mem.h:185-205 | a store-conditional passes its check only if its hart's last load-reserved was to that address and no data or page table store by anyone happened since |
| `BusProtocol.ScPassesIff` | vp/src/core/rv32/mem.h:190-202 | over every run, a store-conditional passes its check if and only if its hart has reserved that address, has since taken no store, trap, WFI, AMO, further load-reserved or store-conditional, and has retired no more than 16 instructions (or what an earlier reservation left); whatever the others do |
| `BusProtocol.ScWriteUntouched` | vp/src/core/rv32/mem.h:190-200 | when the word is written memory is untouched since the load-reserved, unless the store-conditional's own translation stored an entry, and then the lock is no longer held |
| `BusProtocol.ScIsAtomicIff` | vp/src/core/rv32/mem.h:190-202 | a store-conditional past its check finds memory unchanged in every continuation if and only if its translation stored no page table entry |
| `BusProtocol.ScOverwrites` | vp/src/core/rv32/mem.h:190-202 | a run in which a store-conditional succeeds over a peripheral's store that came after the load-reserved |
| `BusProtocol.AmosAreSerial` | vp/src/core/rv32/iss.h:272-286 | without page table stores by AMO translations, every interleaving leaves the memory that the committed stores and whole read-modify-writes give one after the other |
| `BusProtocol.AmoSeesSerialValue` | vp/src/core/rv32/iss.h:272-286 | the value an AMO returns is the one its read-modify-write finds in that serial order |
| `BusProtocol.AmoAssertionIff` | vp/src/core/rv32/mem.h:177-184 | the lock assertion before an AMO's store fails if and only if the translation of its load stored a page table entry |
| `BusProtocol.AmoAborts` | vp/src/core/rv32/mem.h:177-184 | a run in which that assertion fails |
| `BusProtocol.AmoIsAtomicIff` | vp/src/core/rv32/mem.h:181-184 | an AMO past the assertion is a true read-modify-write in every continuation if and only if the translation of its store stored no page table entry |
| `BusProtocol.AmoLosesUpdate` | vp/src/core/rv32/mem.h:181-184 | a run in which a peripheral's store is lost between the two halves of an amoadd |
| `BusProtocol.SerialAddsUp` | vp/src/core/rv32/iss.h:272-286 | a serial log of amoadds adds all addends to the word, modulo 2^32 |
| `BusProtocol.AmoAddsAddUp` | vp/src/core/rv32/iss.h:272-286 | after any interleaving of amoadds the word is its initial value plus all addends, modulo 2^32 |
| `BusProtocol.BudgetIsSpent` | vp/src/core/rv32/iss.cpp:1788-1811 | every instruction that the lock owner retires uses up its countdown |
| `BusProtocol.LockIsHeldBriefly` | vp/src/core/rv32/iss.cpp:559-576 | at an instruction boundary the owner's countdown is between 1 and 16, and nobody keeps the lock for more than 16 of its own instructions |
| `BusProtocol.OwnerNeverWaits` | vp/src/core/rv32/iss.cpp:1081-1094 | the lock owner is never parked in WFI or in a quantum sync and always has a step that the lock admits |
| `BusProtocol.OwnerReleases` | vp/src/core/rv32/iss.h:231-234 | from every reachable state some sequence of the owner's own steps leads to a free lock; that every sequence does within 16 instructions is LockIsHeldBriefly |
| `BusInterface.BusLock.Lock` | vp/src/platform/common/bus.h:108-116 | grants exactly when the lock is free or already owned by the caller |
| `BusInterface.BusLock.Unlock` | vp/src/platform/common/bus.h:118-123 | frees the lock only for its owner |
| `BusInterface.MemoryInterface.RawStore` | vp/src/core/rv32/mem.h:98-114 | stores the word and gives the lock back if it was the caller's, or waits and changes nothing |
| `BusInterface.MemoryInterface.AtomicLoadReserved` | vp/src/core/rv32/mem.h:185-189 | takes the lock, records the reserved address, translates and returns the word; the lock is kept if and only if the translation stored no entry |
| `BusInterface.LoadReservedSteps` | vp/src/core/rv32/mem.h:185-189 | that contract is what the steps of the protocol do without interruption |
| `BusInterface.MemoryInterface.AtomicStoreConditional` | vp/src/core/rv32/mem.h:190-202 | stores if and only if the caller holds the lock and the reserved address matches, after the translation's own store; either way the lock is free of the caller afterwards |
| `BusInterface.StoreConditionalSteps` | vp/src/core/rv32/mem.h:190-202 | that contract is what the steps of the protocol do without interruption |
| `BusInterface.MemoryInterface.ExecuteAmo` | vp/src/core/rv32/iss.h:272-286 | with both translations: the assertion fails if and only if the one of the load stored an entry; else the old word is returned, the word becomes the operation applied to it, and the lock is given back |
| `BusInterface.AmoSteps` | vp/src/core/rv32/iss.h:272-286 | that contract is what the steps of the protocol do without interruption |
| `BusInterface.PeripheralWrite` | vp/src/platform/common/bus.h:92-98 | a peripheral writes only while the bus is unlocked |
| `TrapProofs.ChosenInterrupt` | vp/src/core/rv32/iss.cpp:1652-1726 | the interrupt chosen is pending, enabled and delegated to the level that takes it, which is not below the current one; nothing precedes it in priority, and the throw for an empty choice is unreachable |
| `TrapProofs.NoInterruptMissed` | vp/src/core/rv32/iss.cpp:1703-1726 | if nothing is chosen, every pending and enabled interrupt is masked at the level it is delegated to |
| `TrapProofs.TrapNeverLowers` | vp/src/core/rv32/iss.cpp:1622-1650 | a trap is taken at or above the privilege it interrupts, and in user mode only if delegated twice |
| `TrapProofs.TrapGoesWhereDelegated` | vp/src/core/rv32/iss.cpp:1622-1650 | a trap goes to the lowest level, not below the current one, to which every higher level has delegated it |
| `TrapRuns.ExceptionIsDelegated` | vp/src/core/rv32/iss.cpp:1622-1650 | a step that raises an exception enters that level at the base of its vector, records the reason there and saves the pc of the instruction |
| `TrapProofs.HandlerAddress` | vp/src/core/rv32/iss.cpp:1728-1786 | exceptions and direct mode go to the base; in vectored mode code 0 goes to the base and each further code four bytes on |
| `TrapProofs.EntryMasksOwnLevel` | vp/src/core/rv32/iss.cpp:1728-1786 | right after entry at a level only a strictly higher level can be selected, whatever lines are raised |
| `TrapProofs.SetCsrKeeps` | vp/src/core/rv32/iss.cpp:1298-1379 | the write masks keep xepc aligned, xtvec modes in {0, 1} and the enables within the implemented bits |
| `TrapProofs.ExecKeeps` | vp/src/core/rv32/iss.cpp:118-138 | executing any instruction keeps the invariant, registers written before a trap included, and only a trap leaves a misaligned pc, which its entry resets |
| `TrapProofs.StepKeepsInv` | vp/src/core/rv32/iss.cpp:1813-1851 | one turn of the loop, with its trap or interrupt, keeps the invariant |
| `TrapProofs.RunKeepsInv` | vp/src/core/rv32/iss.cpp:1813-1851 | in every reachable state x0 is zero, pc and the xepc registers are aligned, xtvec modes are legal and the privilege is a real one, so no assertion of the step fires |
| `TrapProofs.OnlyReturnsLowerPrivilege` | vp/src/core/rv32/iss.cpp:1532-1570 | in every run only an executed xRET lowers the privilege |
| `TrapRuns.HandlerRestoresIff` | vp/src/core/rv32/iss.cpp:1532-1570 | in every piece of a run in which xRET is the one of the open handler and no open handler writes mstatus or xepc, a return restores pc, privilege, MIE, SIE and UIE if and only if no trap was taken at the handler's own level while it was open, or what that trap left is the same: its pc, the privilege in xPP after the first xRET, and a set enable |
| `TrapRuns.StepSplits` | vp/src/core/rv32/iss.cpp:1728-1786 | every step is a part that enters nothing, followed by at most one entry, which saves exactly the state before it, records the cause, goes where the vector sends that cause, and leaves the registers of the other levels alone |
| `TrapRuns.StepKeepsStack` | vp/src/core/rv32/iss.cpp:1813-1851 | every step keeps the registers of each level in agreement with the innermost open handler of that level |
| `TrapRuns.NestedTrapLoses` | vp/src/core/rv32/iss.cpp:1728-1786 | from reset, a trap inside a machine handler loses the outer pc, privilege and enable |
| `TrapRuns.TvecLastWritten` | vp/src/core/rv32/iss.cpp:1315-1323 | over runs, xtvec holds what was last written to it, less the bits that cannot be set |
| `TrapRuns.VectorWritten` | vp/src/core/rv32/iss.cpp:1315-1333 | xtvec and xepc read back without the bits that cannot be set, and the other levels keep theirs |
| `TrapRuns.InterruptBitsWritten` | vp/src/core/rv32/csr.h:307-321 | writes to interrupt enables, pending bits and delegation reach exactly the bits of their level and below |
| `TrapRuns.ExceptionBitsWritten` | vp/src/core/rv32/csr.h:316-324 | writes to exception delegation reach exactly the exceptions that can be delegated |
| `TrapRuns.StatusWritten` | vp/src/core/rv32/csr.h:327-329 | a write of xstatus reaches the enable, the saved enable and the saved privilege of its level and below |
| `TrapRuns.RegistersKept` | vp/src/core/rv32/iss.cpp:1813-1851 | a step changes no general register but the one its instruction names, traps, interrupts and returns included |
| `TrapRuns.CallReturns` | vp/src/core/rv32/iss.cpp:263-275 | a call goes the told distance, and a jump through its link register comes back behind it |
| `Iss.Iss.PrepareTrap` | vp/src/core/rv32/iss.cpp:1622-1650 | rewinds the pc and records the cause at the delegated level |
| `Iss.Iss.ComputePendingInterrupts` | vp/src/core/rv32/iss.cpp:1703-1726 | the code's cascade of masks computes the specified selection |
| `Iss.Iss.PrepareInterrupt` | vp/src/core/rv32/iss.cpp:1652-1701 | the priority chain picks an interrupt whenever one was selected |
| `Iss.Iss.SwitchToTrapHandler` | vp/src/core/rv32/iss.cpp:1728-1786 | the whole new state is the specified entry |
| `Iss.Iss.ReturnFromTrapHandler` | vp/src/core/rv32/iss.cpp:1532-1570 | the whole new state is the specified return |
| `Iss.Iss.RunStep` | vp/src/core/rv32/iss.cpp:1813-1851 | one turn of the loop is one step of the machine, its assertions hold, and the invariant is kept |
| `Clint.DelayIsTight` | vp/src/core/common/clint.h:97-103 | whatever wraps around, the wake-up comes before the tick after the comparand |
| `Clint.WakeupCovers` | vp/src/core/common/clint.h:82-108 | with the earliest-notification rule one event serves every hart that needs a wake-up |
| `Clint.StepKeepsInv` | vp/src/core/common/clint.h:75-122 | every write, read, passage of time and turn of the loop keeps every hart's deadline covered |
| `Clint.RunKeepsInv` | vp/src/core/common/clint.h:75-122 | deadlines are covered in every state of every run |
| `Clint.TimerIsPunctual` | vp/src/core/common/clint.h:75-122 | for every hart whose write was processed, and every 64-bit comparand, a wake-up is pending before the tick after it, so the interrupt is less than a tick late, and early by no more than a hart's time may run ahead |
| `Clint.ReadIsCurrent` | vp/src/core/common/clint.h:110-116 | a read of mtime gives the whole ticks up to the reader's local time, and a read of the time CSR is not behind the simulated time |
| `Clint.DelayIsZeroIff` | vp/src/core/common/clint.h:97-103 | the delay asked for is zero if and only if the comparand is a multiple of 2^58 ticks ahead |
| `Clint.TimePassesIff` | vp/src/core/common/clint.h:82-108 | after a turn of the loop time can pass if and only if no hart that needs a wake-up has its comparand a multiple of 2^58 ticks ahead |
| `Clint.SpinsForever` | vp/src/core/common/clint.h:82-108 | otherwise the loop repeats one and the same turn until a hart acts |
| `Clint.OverflowLivelock` | vp/src/core/common/clint.h:97-103 | a run in which one write of 2^58 makes the loop go round any number of times while no time can pass |
| `Clint.Clint.Run` | vp/src/core/common/clint.h:82-108 | the loop over the harts raises exactly the due interrupts and leaves the earliest needed wake-up |
| `Uart.StepKeepsInv` | vp/src/platform/common/abstract_uart.cpp:99-195 | every action of the three threads keeps each semaphore plus its in-flight operations equal to its queue |
| `Uart.RunKeepsInv` | vp/src/platform/common/abstract_uart.cpp:57-60 | so does every interleaving from the initial semaphore values |
| `Uart.QueuesAreSafe` | vp/src/platform/common/abstract_uart.cpp:99-195 | the transmit thread never pops an empty queue, no queue exceeds 8, and accepted bytes are sent, held and queued ones in order |
| `Uart.AcceptsBytes` | vp/src/platform/common/abstract_uart.cpp:107-174 | a byte written to a queue with room is accepted as it is, and one written to a full queue is not |
| `Uart.NoLostWakeup` | vp/src/platform/common/abstract_uart.cpp:180-195 | after a callback, a thread that waits has nothing to do |
| `Uart.AbstractUart.WriteTransmitData` | vp/src/platform/common/abstract_uart.cpp:107-174 | a write to a full queue is ignored, another is two steps of the machine |
| `Uart.AbstractUart.ReadReceiveData` | vp/src/platform/common/abstract_uart.cpp:107-174 | an empty queue reads as bit 31 alone, another gives its oldest byte |
| `Uart.AbstractUart.TransmitOne` | vp/src/platform/common/abstract_uart.cpp:180-195 | the accounting makes the pop after a successful wait defined |
| `Plic.SelectIsFirst` | vp/src/platform/common/fe310_plic.h:107-129 | the running maximum yields a pending, enabled source above zero or the threshold that no other such source precedes, by priority and then id |
| `Plic.ClaimTakesFirst` | vp/src/platform/common/fe310_plic.h:143-158 | a claim returns the first claimable source, or 0 if and only if there is none, and removes just that one |
| `Plic.ClaimsAreComplete` | vp/src/platform/common/fe310_plic.h:107-158 | repeated claims return exactly the claimable sources, each once, in descending priority with ties by ascending id |
| `Plic.ThenZero` | vp/src/platform/common/fe310_plic.h:97-105 | further claims return 0 and change nothing |
| `Plic.PendingIffTriggered` | vp/src/platform/common/fe310_plic.h:83-105 | over any run a source is pending if and only if it was triggered after its last claim |
| `Plic.Fe310Plic.SetPending` | vp/src/platform/common/fe310_plic.h:83-105 | exactly the bit of that source changes in the packed words |
| `Plic.Fe310Plic.GetNextPendingInterrupt` | vp/src/platform/common/fe310_plic.h:107-129 | the loop over the packed words computes the selection |
| `Plic.Fe310Plic.ClaimInterrupt` | vp/src/platform/common/fe310_plic.h:143-158 | a read of the claim register is one claim |
| `RvcFields.FieldsI` | vp/src/core/common/instr.h:590-592 | the I-type extractors recover exactly the operands that the factory encoded |
| `RvcFields.FieldsS` | vp/src/core/common/instr.h:594-596 | the same for S-type |
| `RvcFields.FieldsB` | vp/src/core/common/instr.h:598-601 | the same for B-type, for every even offset of its range |
| `RvcFields.FieldsJ` | vp/src/core/common/instr.h:585-588 | the same for J-type, for every even offset of its range |
| `RvcFields.BaseFieldsAreListed` | vp/src/core/common/instr.h:585-621 | every register and immediate of the base ISA is read from where its format puts it |
| `RvcFields.OffsetsAreEven` | vp/src/core/common/instr.h:585-601 | every branch and jump offset of any word is even, as the trap machine takes for granted |
| `RvcFields.PartsAreListed` | vp/src/core/common/instr.cpp:771-830 | every compressed operand and immediate extractor reads exactly the bits that chapter 16 lays out, for every word |
| `RvcFields.PartsAreSized` | vp/src/core/common/instr.h:456-510 | every extracted operand fits the format it is encoded in |
| `Rvc.ReadsBack` | vp/src/core/common/instr.cpp:832-952 | whatever the factory is called with, execution reads the same operands back out of the word |
| `Rvc.ExpansionCarries` | vp/src/core/common/instr.cpp:954-1342 | decoding and expansion give the listed instruction its base operation and operands |
| `Rvc.BaseMeaning` | vp/src/core/rv32/iss.cpp:179-362 | each base operation, on every valid register state, has the effect that the compressed instruction has in its own terms, link pc + 2 included |
| `AluLaws.AddIsSum` | vp/src/core/rv64/iss.cpp:215-217 | ADD and ADDW give the value of their width that is congruent to the sum |
| `AluLaws.SubUndoesAdd` | vp/src/core/rv32/iss.cpp:207-209 | adding back what SUB or SUBW subtracted gives the old value |
| `AluLaws.LogicIsBitwise` | vp/src/core/rv32/iss.cpp:231-241 | AND, OR and XOR work on every bit of the register by itself |
| `AluLaws.LeftShiftIsProduct` | vp/src/core/rv32/iss.cpp:243-245 | SLLI is the product with a power of two modulo 2^XLEN |
| `AluLaws.LogicalShiftDivides` | vp/src/core/rv32/iss.cpp:247-249 | SRLI divides the unsigned value |
| `AluLaws.ArithmeticShiftDivides` | vp/src/core/rv32/iss.cpp:251-253 | SRAI divides the signed value, rounding down |
| `AluLaws.FitAndAddress` | vp/src/core/rv32/iss.cpp:288-292 | registers and addresses hold XLEN bits of what they are given |
| `AluLaws.NumberCounts` | vp/src/core/common/instr.h:611-621 | operand bits stand for their binary value |
| `Rvc.WordOpMeaning` | vp/src/core/rv32/iss.cpp:1118-1160 | the word operations are decoded on RV32 but raise an illegal instruction, as their reservation demands |
| `Rvc.HintIsBreakpoint` | vp/src/core/common/instr.cpp:1081-1096 | C.ADD into register zero stops at a breakpoint where the ISA goes on |
| `Rvc.ExpansionMeans` | vp/src/core/common/instr.cpp:954-1347 | for every compressed word, both architectures and every register state, executing the expansion has the effect that the ISA gives the instruction, if and only if it is not that hint |
| `Rvc.Instruction.DecodeAndExpandCompressed` | vp/src/core/common/instr.cpp:1344-1347 | the instruction overwritten in place executes as the compressed one means |
| `RvcDecode.DecoderAgrees` | vp/src/core/common/instr.cpp:1349-1898 | the normal decoder names the operation of every expanded word, if and only if it is not ADDIW, whose word decodes as ADDI |
| `MulDiv.HalvesOfProduct` | vp/src/core/rv32/iss.cpp:487-509 | however the double-width product wraps and whichever way the halves are cut, they are the halves of the exact product |
| `MulDiv.MulhReconstructs` | vp/src/core/rv64/iss.cpp:553-561 | MULH over MUL is the exact signed product |
| `MulDiv.MulhuReconstructs` | vp/src/core/rv64/iss.cpp:563-566 | MULHU over MUL is the exact unsigned product |
| `MulDiv.MulhsuReconstructs` | vp/src/core/rv64/iss.cpp:568-571 | MULHSU over MUL is the exact product of the signed and the unsigned operand |
| `MulDiv.DivRem` | vp/src/core/rv32/iss.cpp:511-546 | DIV and REM satisfy the division equation modulo 2^XLEN, exactly but for MIN / -1, with a remainder of the right size and sign |
| `MulDiv.DivisionIsUnique` | vp/src/core/rv32/iss.cpp:511-546 | no other quotient and remainder satisfy that equation, bound and sign |
| `MulDiv.DivuRemu` | vp/src/core/rv32/iss.cpp:524-557 | DIVU and REMU are the exact unsigned division |
| `MulDiv.DivideByZero` | vp/src/core/rv64/iss.cpp:573-615 | division by zero gives all ones and the dividend |
| `MulDiv.MulwIsMulOfLowWords` | vp/src/core/rv64/iss.cpp:617-619 | MULW is the 32-bit MUL of the low words |
| `MulDiv.WordDivisions` | vp/src/core/rv64/iss.cpp:621-663 | the W forms obey the 32-bit laws on the low words, whatever the upper halves hold, give 32-bit results, and divide by a zero low word as by zero |
| `Slip.RoundTrip` | vp/src/platform/common/slip.cpp:104-151 | a nonempty packet comes out as exactly one packet, which is the packet itself if and only if no ESC is directly followed by ESC_END or ESC_ESC |
| `Slip.CollapseIsIdentityIffClean` | vp/src/platform/common/slip.cpp:127-151 | a packet with such a pair comes out shorter |
| `Slip.StreamRoundTrip` | vp/src/platform/common/slip.cpp:91-151 | a stream of packets arrives as sent if and only if every packet is nonempty and has no such pair |
| `Slip.ReferenceRoundTrip` | vp/src/platform/common/slip.cpp:104-125 | the encoder is right: the receiver of RFC 1055 recovers every packet |
| `Slip.AgreesWithReferenceIffClean` | vp/src/platform/common/slip.cpp:127-151 | the device's decoder agrees with the one of RFC 1055 if and only if the packet has no such pair |
| `Slip.BodyHasNoEnd` | vp/src/platform/common/slip.cpp:104-125 | no END appears inside an encoded packet |
| `Slip.CodesOfTheRfc` | vp/src/platform/common/slip.cpp:23-26 | the codes are those of RFC 1055 |
| `Slip.HandleInput` | vp/src/platform/common/slip.cpp:104-125 | the encoder loop pushes the encoding of the bytes read |
| `Slip.SlipDevice.WriteData` | vp/src/platform/common/slip.cpp:127-151 | one byte is one step of the decoder, and every buffer access is inside the block allocated at that moment |
| `Slip.SlipDevice.SendPacket` | vp/src/platform/common/slip.cpp:91-102 | emits exactly the held bytes and shrinks the buffer back |
| `Slip.SlipDevice.Transmit` | vp/src/platform/common/slip.cpp:91-151 | for every byte stream the buffer stays within its capacity and the packets are those of the decoder |
| `Flash.SetPosKeepsFlatIff` | vp/src/platform/basic/flash.h:29-38 | moving the buffer leaves the visible contents unchanged if and only if a needed write-back succeeds and the read succeeds or the stale buffer equals the new block |
| `Flash.FailedWriteLoses` | vp/src/platform/basic/flash.h:49-60 | a failed write-back of a changed block loses its writes |
| `Flash.ClearFlushes` | vp/src/platform/basic/flash.h:72-77 | after clear the device holds the visible contents |
| `Flash.SetDataWritesFlat` | vp/src/platform/basic/flash.h:39-43 | a write in the block is that write on the flat device |
| `Flash.GetDataReadsFlat` | vp/src/platform/basic/flash.h:44-47 | a read in the block is that read on the flat device |
| `Flash.StepRefines` | vp/src/platform/basic/flash.h:29-77 | each buffered operation is exactly the direct one |
| `Flash.RunRefines` | vp/src/platform/basic/flash.h:29-77 | every sequence of selections, reads, writes and clears reads and leaves what direct access to a flat device does, and a final clear puts that on the device |
| `Flash.BlockBuffer.SelectBlock` | vp/src/platform/basic/flash.h:29-38 | the whole new state, I/O failures included |
| `Flash.BlockBuffer.TransportWrite` | vp/src/platform/basic/flash.h:164-174 | a write through the data region is a write at that place of the flat device |
| `Flash.BlockBuffer.TransportRead` | vp/src/platform/basic/flash.h:164-174 | a read through the data region returns the bytes of the flat device and changes none |
| `Dma.OutsideUnchanged` | vp/src/platform/basic/dma.h:63-79 | nothing outside the destination changes |
| `Dma.UnsafeIsStale` | vp/src/platform/basic/dma.h:68-79 | an unsafe transfer writes an older byte at a known place, whatever memory holds |
| `Dma.MemcpyCorrectIff` | vp/src/platform/basic/dma.h:63-79 | the transfer copies every memory correctly if and only if the destination does not start inside the source after its first byte, or 64 bytes suffice |
| `Dma.SimpleDma.PerformMemcpy` | vp/src/platform/basic/dma.h:68-79 | the loop terminates and performs the block-wise transfer |

## Left out

- Floating point: results come from an external library; loads and stores of floating-point registers appear only as operands.
- SystemC, TLM and quantum values: only yield points and the earliest-notification rule of section 5.10.8 of IEEE 1666-2011.
- Host I/O, syscalls, the GDB server, ELF loading and the graphical front ends.
- Accesses that bypass the bus lock (syscall emulation, ethernet receive, debug transport) are not steps of `BusProtocol`.
- Sv64: its mode cannot be written to satp, and the extension check would shift by the full width.
- Mmu.GenericMmu.WalkTables: memory that can be read but not written is not modelled, so the A/D store cannot end in a bus error.
- Mmu.GenericMmu.Walk: for the same reason, without the store page fault at the entry's address that such an error raises.
- Tlb.CacheAgreesWithWalk: runs in which satp, SUM, MXR or the non-A/D bits of an entry change without a flush are outside, as the code relies on a flush then.
- BusProtocol.AmosAreSerial: AMO translations that store page table entries are excluded, since the code drops the lock for them.
- BusProtocol.OwnerReleases: fairness of the SystemC scheduler between harts is not modelled.
- TrapProofs.RunKeepsInv: software is assumed never to write the reserved value 2 to MPP; the trap value registers and the status fields for floating point, SUM, MXR and TVM are not part of this machine.
- TrapRuns.HandlerRestoresIff: xRET has no mode check in the code, so it is assumed to run at the level of its own handler; what follows a return that went astray is not covered.
- Clint.TimerIsPunctual: simulated time itself is unbounded here, and msip is not modelled.
- Uart.QueuesAreSafe: shutdown, the interrupt watermarks and the host side of the threads are not modelled.
- Plic.ClaimsAreComplete: one core only, as the claim code serves hart 0; the external interrupt line, its notification thread and completion are not modelled.
- Rvc.ExpansionMeans: the C extension is taken as present, the memory access itself, its alignment trap and the trap value are not modelled, and register state is valid (x0 zero, values in range, even pc).
- RvcDecode.DecoderAgrees: groups of the normal decoder that no expansion reaches are one unspecified outcome.
- Slip.SlipDevice.WriteData: failures of the network write and of realloc are not modelled.
- Flash.SetPosKeepsFlatIff: a failed transfer is taken to change neither side; short transfers are not modelled. The controller does not check that an access stays inside the block, so this is required of the caller.
- Dma.SimpleDma.PerformMemcpy: no address wrap-around and no concurrent writer, as for a transfer inside one memory.
- FU540_PLIC, GPIO, SPI, PRCI, AON, sensors, CAN, display and OLED: register banks that would add easy members.
- PMP, ASIDs, performance counters and the E base ISA.
