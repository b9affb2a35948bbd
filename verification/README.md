# Verified model of the KSZ8851 network driver

The repository holds an AmigaOS network driver for the KSZ8851 Ethernet chip and a file transfer tool. This project models their logic in Dafny and proves what it is meant to guarantee; where the code falls short of that, it proves exactly when and gives a concrete case. `dafny verify dfyconfig.toml` checks everything.

The source changes state step by step, so each of its functions is a method, most of them on classes with the source's fields (`Ksz8851`, `Nic`, `DeviceUnit`, `EtherDevice`, `Explorer`, `Tokenizer`), with the source's loops. A method is tied to a function of the old state, and the theorems are about those functions and about runs of them.

**Checksums.** `Words` has bytes and machine words as bit sequences, `Wrappers` what several modules share. `CrcRegister` has the CRC of section 3.2.9 of IEEE 802.3 in its two forms and their algebra, `CrcPolynomial` its meaning as a remainder over GF(2), `MulticastFilter` the hash filters of the chip and of `getmcaf`.

**Chip driver.** `InterruptProtocol` is a transition system of chip, interrupt server and event handler in which every register access is a step and chip activity may fall between any two; its invariant says that no wakeup is lost and that uncounted frames leave their cause set. `InterruptHandlers` has the bodies of the two handlers and ties them to runs of that system. `BusExclusion` goes down to single cycles of the chip's command and data port, shared by any number of tasks and the server; the methods of `NicDriver` and `InterruptHandlers` record the operations they make there, and `BusEffects` executes them: what the registers, the endian mode and the chip's log are after each of the driver's functions.

**Frames.** `Frames` says what words in the FIFO mean in both endian modes, `NicDriver` has the send and receive functions and joins those of two cards, `TransmitQueue` the room and the frame ids over whole runs.

**Request engine.** `Sana2Requests` gives each operation on SANA-II requests as a function of the unit's state, `Sana2Unit` and `Sana2Device` the methods. `Sana2Accounts` counts in how many places a request is, `Sana2Invariants` and `Sana2Replies` prove what every operation keeps, `Sana2Runs` lifts that to all sequences of opens, closes, requests, packets and aborts, and `Sana2Theorems` states the results. `Sana2Effects` and `Sana2Dispatch` say exactly what one operation and one packet do, `Sana2Outcomes` and `Sana2Delivery` the same in numbers and packet bytes alone, `Sana2Order` that every queue is first in, first out over whole runs; `Sana2Witnesses` has runs from a closed device for what goes wrong.

**Tools.** `AmigaExplorer` is the framed, chunked file transfer, `AmigaDialogue` lets its two sides talk round by round, `AmigaRefusals` says what ends a transfer early, `MacText` the parser of the station address.

## Where the code differs from its intent

- ksz8851.c:427 overwrites the copy of ISR by the PHY status, so after a link change the later tests read the wrong register (`LinkChangeStrandsFrame`; `StepKeepsInvariant` has the exact condition).
- ksz8851.c:487 writes back all pending causes when it acknowledges an overrun (`OverrunForgetsFrame`).
- ksz8851.c:633 forgets the 14 header bytes (`OverfillsExactly`; `OverfillReachable` has the runs).
- ksz8851.c:1019 returns a counter wrapped below zero, so the alignment word of line 661 is never sent: a cooked transfer keeps the 32-bit alignment of line 659 if and only if its even payload length leaves 2 modulo 4 (`CookedAlignment`; `FortyEightIsMisaligned`, `TrueCountWouldAlign`).
- ksz8851.c:730 accepts lengths past the receive buffer (`ReceiveBufferFits`), and at 768 and device.c:1319 byte counts below 6 (raw) or 20 (cooked) wrap, so that old buffer bytes are handed out (`DeliveredDataExact`, `ShortCountDeliversOldBytes`).
- device.c:2128, 2159 and 2188 ignore the chip driver's result: a write ends without error although the driver refused the frame for its length (ksz8851.c:537) or for want of room (`WriteQueued`, `ShortRawWriteIsLost`).
- device.c:1425 lets a later opener overwrite the delivered flag, although the comment at 1434 promises orphan reads only what nobody else took (`OrphanToo`; `DeliveredTwice` has the runs).
- device.c:1551 and 1588 queue reads without clearing the quick flag, so they are completed without a reply (`QuickReadsGetNoReply`, `QuickReadUnanswered`).
- device.c:435-456 aborts a closing opener's reads but not its orphan reads, which go on naming the buffer management entry freed there (`OrphanLosesOpener`, `OrphanReadOutlives`).
- isr.c:67-76 leaves a unit online without interrupt server when no signal is free (`ConnectedExactly`, `OnlineWithoutServer`), and an open without memory for its opener leaves the unit it built (`IdleExactly`, `IdleUnit`).
- device.c:736-754 flushes all lists but the orphan reads, although the comment at 723 speaks of all requests (`FlushLeavesOrphans`, `OfflineLeavesOrphans`; `OrphanSurvivesFlush` and `OrphanSurvivesOffline` have the runs).
- The last close drops what is still in the unit's port, orphan list and event list (`NothingLeftAfterLastClose`, `LostAtLastClose`).
- device.c:250-270 lets a plain open join a client that has exclusive use (`ExclusiveExactly`, `ExclusiveJoined`), and sets its flags before the probe and the allocations, so that an open which fails there leaves them set with nobody inside (`FlagsExactly`).
- lxamiga.pl:103-113 appends to a table that outlives the call, so that a polynomial other than the first call's is ignored: the call is right if and only if the two are the same (`Crc32Of` with `PolynomialCounts`; `ByteTellsPolynomials` has the input). The tool's own calls name none.
- lxamiga.pl:429 takes the payload "0" for none (`LoneZeroIsNotSent`).

## Model

| member | source | states |
|---|---|---|
| CrcRegister.CrcComposes | KSZ8851/servicetool/ksz8851.c:1139-1165 | the CRC of a message in two parts is the second part run from the CRC of the first |
| CrcRegister.StepBijective | KSZ8851/servicetool/ksz8851.c:1156-1159 | for a fixed message bit one register step has a two-sided inverse |
| CrcRegister.RunInjective | KSZ8851/servicetool/ksz8851.c:1150-1161 | runs over the same bits from different registers end in different registers |
| CrcRegister.RunLinear | KSZ8851/servicetool/ksz8851.c:1150-1161 | a run is linear over GF(2) in register and message together |
| CrcRegister.BurstDetected | KSZ8851/servicetool/ksz8851.c:1139-1165 | two different messages of one length that differ only inside a window of 32 bits, a single bit included, never share a CRC |
| CrcPolynomial.RunIsRemainder | KSZ8851/servicetool/ksz8851.c:1139-1165 | the register after a message is the remainder of the preset, LSB-first message modulo the generator |
| CrcPolynomial.RemainderUnique | KSZ8851/servicetool/ksz8851.c:1139-1165 | division by the generator leaves one remainder only |
| CrcPolynomial.CrcIsTheRemainder | KSZ8851/servicetool/ksz8851.c:1139-1165 | a word is the CRC of a message if and only if some division of the message polynomial leaves it |
| CrcRegister.ReflectedIsComplementOfReversal | tools/lxamiga.pl:94-123 | the reflected CRC of the transfer tool is the complement of the bit reversal of the chip driver's CRC of the same bytes |
| CrcRegister.RunByTable | tools/lxamiga.pl:103-119 | k bits at once: the k bits leaving the register select a correction of the shifted rest |
| CrcRegister.TableStep | tools/lxamiga.pl:117-119 | one lookup by the low byte of register and data does the work of eight bit steps |
| CrcRegister.PolynomialCounts | tools/lxamiga.pl:94-123 | from any register two polynomials give the same result for every input if and only if they are the same polynomial |
| CrcRegister.ByteTellsPolynomials | tools/lxamiga.pl:94-123 | the failing input: with the default initial value the single byte 127 gives different checksums for any two different polynomials |
| CrcRegister.PolynomialNumbers | KSZ8851/servicetool/ksz8851.c:1157 | the generators are 0x04C11DB7 and, reflected (lxamiga.pl:99), 0xEDB88320 |
| AmigaExplorer.Explorer.Entry | tools/lxamiga.pl:104-112 | the inner loop gives eight message-free steps of its index |
| AmigaExplorer.Explorer.FillTable | tools/lxamiga.pl:101-113 | the table, which outlives the call and grows by 256 words in each, goes on starting with the 256 words of the first call's polynomial |
| AmigaExplorer.Explorer.Crc32Of | tools/lxamiga.pl:94-123 | the table-driven loop computes the bit-serial reflected register run, for any initial value and with the polynomial of the first call, whichever is asked for |
| AmigaExplorer.Explorer.Crc32 | tools/lxamiga.pl:94-123 | with the defaults it is the reflected CRC-32 |
| MulticastFilter.CalcCrc | KSZ8851/servicetool/ksz8851.c:1139-1165 | the two nested loops compute the CRC by which the algebra above is stated |
| MulticastFilter.CalcCrcEnds | KSZ8851/servicetool/ksz8851.c:1151 | the 16-bit counter reaches the length if and only if that is less than 65536 |
| MulticastFilter.SetMulticastFilter | KSZ8851/servicetool/ksz8851.c:795-842 | bit k of the table is set if and only if some live entry has its CRC, as a number, between 2 to the 26 times k and 2 to the 26 times k + 1 |
| MulticastFilter.IndexByRange | KSZ8851/servicetool/ksz8851.c:821 | the hash index of an address is k if and only if its CRC, as a number, is in the k-th of 64 equal ranges |
| MulticastFilter.OrderIrrelevant | KSZ8851/servicetool/ksz8851.c:811-832 | filters with the same live addresses give the same table, whatever their order and repetitions |
| MulticastFilter.McafCrc | KSZ8851/devicedriver/device.c:1857-1868 | the CRC loop inside getmcaf computes the same CRC |
| MulticastFilter.GetMcaf | KSZ8851/devicedriver/device.c:1832-1878 | promiscuous mode opens the whole filter; otherwise bit b of word w is set if and only if the CRC of some address is in the range of hash bit 32 w + 24 - 8 (b / 8) + b mod 8 |
| MulticastFilter.PermutedIs | KSZ8851/devicedriver/device.c:1869-1873 | the five low bits of the index with the two high of them complemented, in numbers |
| MulticastFilter.PermutedInvolutive | KSZ8851/devicedriver/device.c:1873 | (k mod 32) xor 24 is its own inverse on each filter word |
| MulticastFilter.FiltersAgree | KSZ8851/devicedriver/device.c:1869-1873 | for one address set the 64-bit mask is the chip's table under the permutation (k mod 32) xor 24 |
| InterruptProtocol.BookkeepingKept | KSZ8851/servicetool/ksz8851.c:300-519 | every step, guarded or not, keeps IER within the five handled causes and the locals of server and handler true to the registers |
| InterruptProtocol.StepKeepsInvariant | KSZ8851/servicetool/ksz8851.c:300-519 | a step keeps "no lost wakeup, no unflagged frame" if and only if it meets its guard |
| InterruptProtocol.WakeupKept | KSZ8851/servicetool/ksz8851.c:412-511 | the wakeup half of the invariant, with its own exact guard: the PHY read at 427 and the overrun acknowledgement at 487 |
| InterruptProtocol.FlagsKept | KSZ8851/servicetool/ksz8851.c:461-495 | the frame half, with its own exact guard: an unreleasable frame skipped, and the overrun acknowledgement |
| InterruptProtocol.SafeRunsKeepInvariant | KSZ8851/servicetool/ksz8851.c:300-519 | no wakeup is lost and no frame unflagged anywhere in any interleaving whose steps are guarded |
| InterruptProtocol.InvariantThroughoutExactly | KSZ8851/servicetool/ksz8851.c:300-519 | the invariant holds at every point of a run if and only if every step of the run is guarded |
| InterruptProtocol.UnsafeStepBreaks | KSZ8851/servicetool/ksz8851.c:427-487 | the first unguarded step of a run loses a wakeup or leaves a frame unflagged |
| InterruptProtocol.QuietRunsLoseNothing | KSZ8851/servicetool/ksz8851.c:300-519 | without link changes, overruns and frames that are neither valid nor flagged, no interleaving from going online on loses anything |
| InterruptProtocol.RestMeansDrained | KSZ8851/servicetool/ksz8851.c:461-511 | at rest every source is enabled again and the receive queue is empty |
| InterruptProtocol.SettleIsRun | KSZ8851/servicetool/ksz8851.c:300-519 | the software left alone reaches rest by its own steps |
| InterruptProtocol.DeliveryConserved | KSZ8851/servicetool/ksz8851.c:472-478 | in every run no good frame is lost, repeated or overtaken between the chip and the upper layer |
| InterruptProtocol.PauseDrains | KSZ8851/servicetool/ksz8851.c:300-519 | after any quiet run the software alone hands up every good frame that arrived, once and in order, and enables every source |
| InterruptProtocol.BookkeepingInEveryRun | KSZ8851/servicetool/ksz8851.c:300-519 | the bookkeeping holds after every run |
| InterruptProtocol.LineReleased | KSZ8851/servicetool/ksz8851.c:312-394 | the server claims the interrupt exactly when ISR meets IER, then always signals, and leaves asserted only what was raised while it ran |
| InterruptProtocol.LinkChangeStrandsFrame | KSZ8851/servicetool/ksz8851.c:421-461 | one good frame and one link change: status now holds the PHY register, the frame stays queued and its cause masked with nobody waking up |
| InterruptProtocol.StrandedStays | KSZ8851/servicetool/ksz8851.c:427-461 | a stranded receive cause stays so until another enabled cause is raised |
| InterruptProtocol.OverrunForgetsFrame | KSZ8851/servicetool/ksz8851.c:483-488 | one overrun and one frame arriving before its acknowledgement: everything is at rest and the frame still queued |
| InterruptHandlers.Ksz8851.IrqHandler | KSZ8851/servicetool/ksz8851.c:300-394 | the server body clears TX and link-up in ISR and masks what it saw if and only if ISR meets IER, and the accesses it puts on the bus, executed, take any calm chip's ISR and IER to just these values |
| InterruptHandlers.Ksz8851.Isr | KSZ8851/servicetool/isr.c:29-54 | server run, signal and count together; nonzero exactly if the interrupt was claimed |
| InterruptHandlers.Ksz8851.ReceivePacket | KSZ8851/servicetool/ksz8851.c:687-786 | a frame leaves the queue if and only if it is valid or flagged by one of eight error bits, and goes up if and only if it is valid and 1 to 1522 bytes long; its accesses keep any chip in the driver's endian mode, and those of a good frame put it there |
| InterruptHandlers.Ksz8851.HandleLink | KSZ8851/servicetool/ksz8851.c:421-443 | the link branch goes from the point before it in the handler's run to the one behind it, with status then holding the PHY register |
| InterruptHandlers.Ksz8851.HandleOverrun | KSZ8851/servicetool/ksz8851.c:483-495 | so does the overrun branch, acknowledging all causes pending at its read |
| InterruptHandlers.Ksz8851.ReceivePending | KSZ8851/servicetool/ksz8851.c:464-480 | the loop over the 8-bit frame counter makes the protocol's run to the end of the receive branch, one reception on the bus for each frame counted, the chip's endian mode kept by all of them |
| InterruptHandlers.Ksz8851.EventHandler | KSZ8851/servicetool/ksz8851.c:401-519 | the handler body makes exactly the protocol's handler run, enables exactly the causes it found in its status local, and its accesses, executed, take any calm chip's ISR and IER to the driver's values and keep its endian mode |
| InterruptHandlers.ServerRunResult | KSZ8851/servicetool/ksz8851.c:312-393 | what one undisturbed server run does to ISR, IER and the signal, in closed form |
| InterruptHandlers.HandlerDrains | KSZ8851/servicetool/ksz8851.c:461-511 | an undisturbed handler run without link change and overrun acknowledges and enables the receive cause and empties the queue, good frames upwards |
| InterruptHandlers.OnlineIsStart | KSZ8851/servicetool/ksz8851.c:49-68 | going online on a calm chip whose causes are masked leaves ISR and IER as the protocol starts |
| InterruptHandlers.BackAtStart | KSZ8851/servicetool/ksz8851.c:49-87 | so does going offline and online from any calm chip, whatever was pending or enabled |
| BusExclusion.TransferMode | KSZ8851/servicetool/ksz8851.c:565-575 | from a calm chip a send transfer carries exactly the words it was called with and leaves the chip calm |
| BusExclusion.SendIsTaskFunction | KSZ8851/servicetool/ksz8851.c:547-587 | a send keeps Disable and Enable paired on both return paths and touches the chip only in between, SDA closed at the end |
| BusExclusion.HandlerIsTaskFunction | KSZ8851/servicetool/ksz8851.c:415-515 | the same for the event handler with any number of receptions, each of which opens an interrupt window |
| BusExclusion.ServerIsServerFunction | KSZ8851/servicetool/ksz8851.c:313-390 | the interrupt server leaves the chip as calm as it found it, whatever it claims |
| BusExclusion.OnlineAndOfflineAreTaskFunctions | KSZ8851/servicetool/ksz8851.c:49-87 | going online, going offline and setting the address are task functions too |
| BusExclusion.CycleKeepsOwned | KSZ8851/servicetool/ksz8851.c:850-877 | one bus cycle keeps the chip in the state the owner's own operations made |
| BusExclusion.StepKeepsExclusion | KSZ8851/servicetool/ksz8851.c:401-786 | every step of tasks, server, scheduler and chip keeps the exclusion invariant |
| BusExclusion.Exclusion | KSZ8851/servicetool/ksz8851.c:401-786 | in every interleaving a data cycle reaches the register its own agent selected last or that agent's own FIFO transfer; SDA only inside Disable or in the server; finished transfers hold their owners' words; nesting is restored |
| BusExclusion.LogPaysWhatIsOwed | KSZ8851/servicetool/ksz8851.c:565-575 | a cycle adds to the chip's log exactly what it takes off the transfers its agent still owes |
| BusExclusion.SendOwes | KSZ8851/servicetool/ksz8851.c:549-578 | a send that finds room owes the chip one transfer of precisely its words, one that finds none owes nothing |
| BusEffects.SendEffect | KSZ8851/servicetool/ksz8851.c:549-587 | executed on a calm chip a send that finds room adds one finished transfer of precisely its words and starts it, one that finds none changes nothing; the endian mode stays |
| BusEffects.GoodSetsMode | KSZ8851/servicetool/ksz8851.c:735-736 | after a good reception RXFDPR holds bit 14, and bit 11 if and only if the driver is in big endian mode, whatever mode the chip was in |
| BusEffects.HandlerKeepsMode | KSZ8851/servicetool/ksz8851.c:401-519 | a chip that agrees with the driver's endian mode still does after a whole handler run, whatever frames it received |
| BusEffects.ServerCarries | KSZ8851/servicetool/ksz8851.c:312-390 | executed on a calm chip the interrupt server's accesses clear TX and link-up and set IER as given if it claims, and leave ISR and IER alone otherwise |
| BusEffects.HandlerCarries | KSZ8851/servicetool/ksz8851.c:412-511 | so do the handler's: what ISR and IER hold afterwards, whatever the receptions between |
| BusEffects.OnlineEffect | KSZ8851/servicetool/ksz8851.c:53-67 | going online leaves ISR empty and adds link change, receive and overrun to IER, the transmitter and the receiver on, every other register as it was |
| BusEffects.OfflineEffect | KSZ8851/servicetool/ksz8851.c:78-84 | going offline leaves IER empty, both directions off, every other register as it was |
| BusEffects.AddressEffect | KSZ8851/servicetool/ksz8851.c:1222-1229 | setting the address puts its words into their three registers and touches no other |
| Frames.UnpackPack | KSZ8851/servicetool/ksz8851.c:1016-1095 | unpacking 16-bit words gives back the packed bytes, in either endian mode |
| Frames.PackConcat | KSZ8851/servicetool/ksz8851.c:648-656 | writing even-length pieces one after the other writes their concatenation |
| Frames.RawFrame | KSZ8851/servicetool/ksz8851.c:561-578 | the chip sends exactly the caller's bytes with the frame's control word and byte count, in either endian mode |
| Frames.CookedFrame | KSZ8851/servicetool/ksz8851.c:621-668 | the chip sends destination, source, type and payload, lengthened to 46 bytes |
| Frames.CookedRefinesRaw | KSZ8851/servicetool/ksz8851.c:528-680 | from 46 payload bytes on a cooked send is, to the chip, the raw send of the assembled frame, for any two endian modes |
| NicDriver.Nic.WriteFifoWordAlign | KSZ8851/servicetool/ksz8851.c:992-1020 | writes the data rounded up to whole words, by a 16-bit count; the result is 0xFFFE for every length, made of the counter the loop leaves below zero |
| NicDriver.Nic.WriteFifo | KSZ8851/servicetool/ksz8851.c:1028-1054 | writes the data rounded up to 32-bit units, by a 16-bit count |
| NicDriver.Nic.SendPacket | KSZ8851/servicetool/ksz8851.c:528-590 | accepts exactly 46 to 1518 bytes with 8 bytes more of room; refuses bad lengths without touching the bus and missing room without a trace at the chip; else the chip gets the frame with control word 0x8000 plus the id modulo 64, and the counter steps once |
| NicDriver.Nic.SendPacketCooked | KSZ8851/servicetool/ksz8851.c:603-680 | for payloads of any length: refuses missing room without a trace at the chip; else the chip gets header, addresses, type and the payload padded to 46 bytes, with control word 0x8000 plus the id modulo 64 |
| NicDriver.Nic.WriteCooked | KSZ8851/servicetool/ksz8851.c:646-668 | the cooked transfer is the chip's frame and ends on a 32-bit boundary if and only if the even payload length leaves 2 modulo 4 |
| NicDriver.CookedAlignment | KSZ8851/servicetool/ksz8851.c:659-663 | the same of the words themselves, for every padded length |
| NicDriver.FortyEightIsMisaligned | KSZ8851/servicetool/ksz8851.c:659-663 | the failing case: 48 bytes of payload make a transfer of 66 |
| NicDriver.TrueCountWouldAlign | KSZ8851/servicetool/ksz8851.c:655-663 | with the number of bytes really written the aligning word would end every cooked transfer on a 32-bit boundary |
| NicDriver.Nic.ReadFifo | KSZ8851/servicetool/ksz8851.c:1072-1095 | fills memory, rounded up to 32-bit units, with what the FIFO gives, and nothing else; one word off the bus for each two bytes |
| NicDriver.Nic.ReceivePacket | KSZ8851/servicetool/ksz8851.c:687-786 | releases error frames, refuses bad lengths, else delivers the frame from two bytes on with the wrapped size; after a delivered frame the chip is in the driver's endian mode with bit 14 set, else RXFDPR is untouched; releases and delivers exactly what the interrupt protocol calls releasable and deliverable |
| NicDriver.SendAndReceive | KSZ8851/devicedriver/device.c:1293-1385 | two cards: an accepted cooked send of one, put at the head of the other's queue, received there and read by a cooked request gives addresses, type and payload (padded to 46 bytes), whatever the two endian modes |
| NicDriver.SendAndReceiveRaw | KSZ8851/servicetool/ksz8851.c:528-786 | the same for raw sends and requests: up to 1516 bytes are delivered, with the first 1514 of the frame, longer ones refused |
| NicDriver.DeliveredDataExact | KSZ8851/servicetool/ksz8851.c:730-768 | of the accepted byte counts exactly 6 to 1520 (raw) and 20 to 1520 (cooked) deliver the data of the frame; every other one delivers another number of bytes |
| NicDriver.ShortCountDeliversOldBytes | KSZ8851/servicetool/ksz8851.c:768 | the failing case: a byte count of 5 delivers 1514 bytes, all but 6 of them older than the frame |
| NicDriver.ReceiveBufferFits | KSZ8851/servicetool/ksz8851.c:730 | of the accepted lengths exactly those up to 1520 stay inside the receive buffer of line 208 |
| TransmitQueue.WrapKeepsId | KSZ8851/servicetool/ksz8851.c:561 | the 16-bit counter wraps at a multiple of 64, so ids go on counting modulo 64 |
| TransmitQueue.RunKeeps | KSZ8851/servicetool/ksz8851.c:549-578 | over every run room is conserved and ids count up modulo 64 |
| TransmitQueue.IdsDistinct | KSZ8851/servicetool/ksz8851.c:561 | any 64 consecutive accepted frames carry different ids, across the counter wrap |
| TransmitQueue.OverfillsExactly | KSZ8851/servicetool/ksz8851.c:633 | a send overfills the queue if and only if it is a cooked one accepted with less room than its 14 header bytes more |
| TransmitQueue.OverfillReachable | KSZ8851/servicetool/ksz8851.c:633 | a run of cooked sends of at most 1500 bytes overfills the queue if and only if there is room for one of them at all |
| TransmitQueue.QueueBound | KSZ8851/servicetool/ksz8851.c:549-578 | the queue is never overfull in a run if and only if no send in it overfills |
| TransmitQueue.RawRunsFit | KSZ8851/servicetool/ksz8851.c:553 | runs of raw sends and transmissions keep the bound without any condition |
| Sana2Unit.DeviceUnit.TermIO | KSZ8851/devicedriver/device.c:1187-1202 | a request is replied to if and only if it is not quick, unless it was before; it is noted as completed once; no other request changes |
| Sana2Unit.DeviceUnit.AbortReqList | KSZ8851/devicedriver/device.c:701-720 | takes every request off a list, in order, aborted and completed |
| Sana2Unit.DeviceUnit.ScanEvents | KSZ8851/devicedriver/device.c:1219-1234 | the walk over the event list completes the waiters of the event in order and keeps the rest |
| Sana2Unit.DeviceUnit.DoEvent | KSZ8851/devicedriver/device.c:1207-1241 | the walk as a step of the unit's state |
| Sana2Unit.DeviceUnit.SendAllPackets | KSZ8851/devicedriver/device.c:2103-2211 | empties the transmit port, sending or refusing each request and reporting wire errors before completing it |
| Sana2Unit.DeviceUnit.DevCmdWritePacket | KSZ8851/devicedriver/device.c:1251-1284 | offline, too long, or queued and sent at once |
| Sana2Unit.DeviceUnit.DevCmdReadPacket | KSZ8851/devicedriver/device.c:1530-1576 | queued with the request's own opener, searched by a loop; offline or unknown opener refused |
| Sana2Unit.DeviceUnit.DevCmdReadOrphan | KSZ8851/devicedriver/device.c:1580-1602 | online the request is last in the orphan list, pending and not completed; offline it is completed as out of service and not queued; no other request changes |
| Sana2Unit.DeviceUnit.DevCmdOnEvent | KSZ8851/devicedriver/device.c:1810-1830 | completed at once, without error, exactly if its mask has the state the unit is in; otherwise last in the event list and nothing else changed |
| Sana2Unit.DeviceUnit.InstallInterruptHandler | KSZ8851/servicetool/isr.c:56-87 | installed afterwards if and only if it was before or a signal was free; servers and signals counted up together, once; a second call changes nothing |
| Sana2Unit.DeviceUnit.UninstallInterruptHandler | KSZ8851/servicetool/isr.c:89-102 | never installed afterwards; servers and signals counted down together, exactly if it was |
| Sana2Unit.DeviceUnit.DevCmdOnline | KSZ8851/devicedriver/device.c:1457-1501 | refused unconfigured, else online with its waiters completed first |
| Sana2Unit.DeviceUnit.DevCmdConfigInterface | KSZ8851/devicedriver/device.c:1665-1691 | configured afterwards and its request the last completed; the first time online with the request's address, later without any change of address, state or interrupt server |
| Sana2Unit.DeviceUnit.FlushQueues | KSZ8851/devicedriver/device.c:730-754 | aborts all reads of all openers, then writes, then events, each list in order |
| Sana2Unit.DeviceUnit.DevCmdFlush | KSZ8851/devicedriver/device.c:730-760 | flushes and then completes its own request |
| Sana2Unit.DeviceUnit.DevCmdOffline | KSZ8851/devicedriver/device.c:1504-1526 | offline event, flush, interrupt server away, own request |
| Sana2Unit.DeviceUnit.PerformIO | KSZ8851/devicedriver/device.c:1096-1180 | dispatches by command, unknown ones refused |
| Sana2Unit.DeviceUnit.BeginIO | KSZ8851/devicedriver/device.c:1071-1087 | performs at once or queues as pending and not quick |
| Sana2Unit.DeviceUnit.ServicePort | KSZ8851/devicedriver/device.c:1003-1010 | the unit process performs queued requests in order until the port is empty |
| Sana2Unit.DeviceUnit.AbortRequestAndRemove | KSZ8851/devicedriver/device.c:657-693 | finds a request in a list, unlinks and completes it; else changes nothing |
| Sana2Unit.DeviceUnit.AbortIO | KSZ8851/devicedriver/device.c:586-643 | searches the list of the request's command if it is pending; the result code |
| Sana2Unit.DeviceUnit.Receive | KSZ8851/devicedriver/device.c:1308-1381 | fills in the request, asks filter and copy function, reports a failed copy and completes |
| Sana2Unit.DeviceUnit.FulfillReadIORequest | KSZ8851/devicedriver/device.c:1293-1385 | the same, unlinking the request unless the filter rejected it |
| Sana2Unit.DeviceUnit.OfferTo | KSZ8851/devicedriver/device.c:1416-1428 | offers the packet to the first read of one opener that fits |
| Sana2Unit.DeviceUnit.OnPktReceived | KSZ8851/devicedriver/device.c:1391-1451 | one turn per opener, then perhaps the first orphan read |
| Sana2Unit.DeviceUnit.Stop | KSZ8851/devicedriver/device.c:1023-1026 | offline and without interrupt server; what was still queued is left behind |
| Sana2Device.EtherDevice.Open | KSZ8851/devicedriver/device.c:214-408 | flags, probe, unit and opener in the source's order, the counts balanced on every path |
| Sana2Device.EtherDevice.FreeOpener | KSZ8851/devicedriver/device.c:435-456 | aborts the caller's reads and removes its entry, found by a loop |
| Sana2Device.EtherDevice.Expunge | KSZ8851/devicedriver/device.c:884-914 | dissolves the unit |
| Sana2Device.EtherDevice.Close | KSZ8851/devicedriver/device.c:419-502 | invalid handles ignored; else opener, flags, counts and, at zero, the unit |
| Sana2Accounts.CountEvent | KSZ8851/devicedriver/device.c:1207-1241 | DoEvent moves requests from waiting to completed, none lost or doubled |
| Sana2Accounts.CountSendAll | KSZ8851/devicedriver/device.c:2111-2210 | the send loop, with the events fired inside it, completes exactly what it takes off the port |
| Sana2Accounts.CountFlush | KSZ8851/devicedriver/device.c:730-754 | a flush completes exactly what it takes off the lists |
| Sana2Accounts.CountExecute | KSZ8851/devicedriver/device.c:1103-1179 | every command files its request in one list or completes it once, and every other request is moved, not lost or doubled |
| Sana2Accounts.CountAbort | KSZ8851/devicedriver/device.c:586-693 | an abort moves one request from its list to completion |
| Sana2Accounts.CountReceive | KSZ8851/devicedriver/device.c:1391-1451 | a packet moves requests from their lists to completion |
| Sana2Invariants.ShrinksSendAll | KSZ8851/devicedriver/device.c:2111-2210 | the send loop completes all it takes and changes how a request is filed only by completing it |
| Sana2Invariants.ShrinksReceive | KSZ8851/devicedriver/device.c:1391-1451 | so does the reception of a packet |
| Sana2Invariants.RaiseGood | KSZ8851/devicedriver/device.c:1470-1488 | going online keeps every invariant: those waiting for it are answered |
| Sana2Invariants.DropGood | KSZ8851/devicedriver/device.c:1508-1519 | going offline keeps every invariant: those waiting for it are answered and the lists emptied |
| Sana2Invariants.PerformGood | KSZ8851/devicedriver/device.c:1096-1180 | every command keeps: requests filed where they belong, nobody waiting for the present state, the unit's mode |
| Sana2Invariants.BeginGood | KSZ8851/devicedriver/device.c:1071-1087 | so does every request handed in |
| Sana2Invariants.AbortGood | KSZ8851/devicedriver/device.c:586-643 | so does every abort |
| Sana2Invariants.ReceiveGood | KSZ8851/devicedriver/device.c:1391-1451 | so does every packet |
| Sana2Invariants.PerformMode | KSZ8851/devicedriver/device.c:1457-1526 | no command moves an opener or undoes a configuration; an offline unit goes online exactly by the first configuration or a later online command, and gets its interrupt server then if and only if a signal is free |
| Sana2Replies.PerformAnswers | KSZ8851/devicedriver/device.c:1187-1202 | after any command exactly the completed requests that are not quick have been replied to, and reads are as quick as they came |
| Sana2Runs.OpenKeeps | KSZ8851/devicedriver/device.c:214-408 | every open, successful or not, keeps the whole invariant |
| Sana2Runs.CloseKeeps | KSZ8851/devicedriver/device.c:419-502 | every close, repeated or last, keeps the whole invariant |
| Sana2Runs.StepKeeps | KSZ8851/devicedriver/device.c:214-1830 | so does every event |
| Sana2Runs.RunKeeps | KSZ8851/devicedriver/device.c:214-1830 | the invariant holds after every run |
| Sana2Theorems.ExactlyOnePlace | KSZ8851/devicedriver/device.c:586-760 | after every run a request that arrived waits in exactly one list once, or was completed exactly once, or was left behind by a dissolved unit |
| Sana2Theorems.NothingLeftAfterLastClose | KSZ8851/devicedriver/device.c:419-502 | the last close leaves no unit and only the requests then in the port, the orphan list and the event list without completion |
| Sana2Witnesses.LostAtLastClose | KSZ8851/devicedriver/device.c:470-481 | a run from a closed device at whose end an event request is left behind uncompleted and the unit gone |
| Sana2Theorems.NobodyWaitsInVain | KSZ8851/devicedriver/device.c:1810-1830 | after every run no queued event request waits for ONLINE while online or for OFFLINE while offline |
| Sana2Theorems.UnitStates | KSZ8851/devicedriver/device.c:1457-1576 | online implies configured; the transmit port is empty between commands; offline units queue no reads; servers and signals match the installed state |
| Sana2Theorems.OnlineMeansInstalled | KSZ8851/servicetool/isr.c:56-102 | in runs where a signal can be had, online exactly while one interrupt server and one signal are there |
| Sana2Theorems.ConnectedExactly | KSZ8851/servicetool/isr.c:56-87 | a step leaves a unit online without its interrupt server if and only if the unit process takes it online and is refused the signal |
| Sana2Witnesses.OnlineWithoutServer | KSZ8851/servicetool/isr.c:67-87 | a run from a closed device that ends online without interrupt server |
| Sana2Theorems.ConfiguredOnce | KSZ8851/devicedriver/device.c:1671-1690 | a configuration and its address last as long as the unit |
| Sana2Theorems.OpenAndCloseBalance | KSZ8851/devicedriver/device.c:214-502 | both open counts equal the number of openers, one for each valid handle, all different; a unit is there while it is open |
| Sana2Theorems.UnitWhileOpen | KSZ8851/devicedriver/device.c:290-481 | the unit is there exactly while the count is positive, in runs where memory can be had |
| Sana2Theorems.IdleExactly | KSZ8851/devicedriver/device.c:290-404 | a step leaves a unit that nobody has open if and only if an open passed the checks, had the unit built and got no memory, or the unit was such before and no open succeeded |
| Sana2Witnesses.IdleUnit | KSZ8851/devicedriver/device.c:290-404 | a run from a closed device that ends with such a unit |
| Sana2Theorems.OpenSucceedsExactly | KSZ8851/devicedriver/device.c:236-404 | an open succeeds if and only if stack, unit number, probe and memory are right, exclusive use is asked for by the first client only and promiscuous mode with it only; whether someone has exclusive use does not matter |
| Sana2Theorems.ExclusiveExactly | KSZ8851/devicedriver/device.c:250-270 | a step ends exclusive use, its flag still set, if and only if it is a plain open of a second client |
| Sana2Theorems.ExclusiveRun | KSZ8851/devicedriver/device.c:250-270 | in every run without such an open at most one client is inside while the flag is set |
| Sana2Theorems.FlagsExactly | KSZ8851/devicedriver/device.c:250-464 | the exclusive and the promiscuous flag are set exactly by an open that asks for them and finds nobody inside, even one that then fails, and cleared exactly by a valid close, whoever closes |
| Sana2Theorems.PromiscuousIsExclusive | KSZ8851/devicedriver/device.c:261-270 | promiscuous mode is never on without the exclusive flag, in any run |
| Sana2Witnesses.ExclusiveJoined | KSZ8851/devicedriver/device.c:250-270 | a run from a closed device that ends with two clients inside and the exclusive flag set |
| Sana2Theorems.QuickReadsGetNoReply | KSZ8851/devicedriver/device.c:1530-1602 | a read is replied to if and only if it was completed and its client had not asked for quick I/O, in every run |
| Sana2Witnesses.QuickReadUnanswered | KSZ8851/devicedriver/device.c:1530-1576 | for every packet a run from a closed device in which a quick read gets its data without error and no reply |
| Sana2Theorems.OrphanLosesOpener | KSZ8851/devicedriver/device.c:435-456 | a step takes the opener of a waiting orphan read away if and only if it closes that opener while another keeps the unit |
| Sana2Witnesses.OrphanReadOutlives | KSZ8851/devicedriver/device.c:1308-1381 | for every packet a run from a closed device after which an orphan read of a closed opener is given the packet |
| Sana2Effects.EventExact | KSZ8851/devicedriver/device.c:1207-1241 | DoEvent completes exactly the waiters, in order, with the event and no error; the rest stay as they were, in order |
| Sana2Effects.WriteExact | KSZ8851/devicedriver/device.c:1251-1284 | a packet goes to the chip driver if and only if the write ends without error; which error otherwise |
| Sana2Effects.WriteQueued | KSZ8851/devicedriver/device.c:2128-2193 | a write is in the chip's queue afterwards if and only if it ended without error and the driver's own guard held; otherwise the queue is unchanged |
| Sana2Effects.ShortRawWriteIsLost | KSZ8851/devicedriver/device.c:2126-2129 | raw writes of 15 to 45 bytes end without error and never reach the chip's queue |
| Sana2Effects.WriteCompleted | KSZ8851/devicedriver/device.c:1255-1283 | a write is completed exactly once before the call ends, the transmit port empty again |
| Sana2Effects.AbortExact | KSZ8851/devicedriver/device.c:586-693 | AbortIO succeeds if and only if the request waits outside the port; then that request alone is completed as aborted, else nothing changes |
| Sana2Effects.OfflineLeavesOrphans | KSZ8851/devicedriver/device.c:1504-1526 | going offline leaves nothing in the unit's own lists if and only if no orphan read waited |
| Sana2Effects.FlushLeavesOrphans | KSZ8851/devicedriver/device.c:723-760 | so does CMD_FLUSH, and the orphan reads keep their place and their records |
| Sana2Outcomes.WaiterTold | KSZ8851/devicedriver/device.c:1219-1234 | a waiter of an event is told error 0 and exactly this one event, replied to unless quick |
| Sana2Outcomes.AbortTold | KSZ8851/devicedriver/device.c:657-693 | an aborted request is told -2 and otherwise keeps all its client put in it |
| Sana2Outcomes.AbortAnswers | KSZ8851/devicedriver/device.c:586-643 | what AbortIO answers for a request it leaves alone, and that it changes nothing then |
| Sana2Outcomes.FlushTold | KSZ8851/devicedriver/device.c:701-754 | a flush tells -2 to exactly the waiting reads, writes and event requests, in this order |
| Sana2Outcomes.ReadQueued | KSZ8851/devicedriver/device.c:1548-1556 | an online unit queues a read last with the opener it names and changes nothing else |
| Sana2Outcomes.ReadRefused | KSZ8851/devicedriver/device.c:1536-1570 | an offline unit refuses a read with error 10 and wire error 3, an unknown opener gets error 3 |
| Sana2Outcomes.OrphanReadTold | KSZ8851/devicedriver/device.c:1580-1602 | an orphan read is only marked pending and queued, or refused with error 10 and wire error 3 |
| Sana2Outcomes.ControlQueued | KSZ8851/devicedriver/device.c:1071-1087 | control commands are handed to the unit process, last in its port, pending and no longer quick |
| Sana2Outcomes.RefusalsTold | KSZ8851/devicedriver/device.c:1457-1691 | the errors and wire errors of an online command unconfigured, a second configuration and an unknown command, which change no state |
| Sana2Outcomes.OnEventTold | KSZ8851/devicedriver/device.c:1810-1830 | a request for events is answered at once, with error 0 and the states its mask has, if and only if it waits for the state the unit is in; else it joins the waiters, last |
| Sana2Outcomes.QueryTold | KSZ8851/devicedriver/device.c:1138-1166 | a query ends with what the lookup came to, its wire error set only on failure |
| Sana2Outcomes.ChangesTold | KSZ8851/devicedriver/device.c:1457-1691 | accepted, they end without error, the unit online, offline, or online with the client's address |
| Sana2Outcomes.WriteTold | KSZ8851/devicedriver/device.c:2103-2211 | an online write of legal length is answered within the call, never quick, its wire error a buffer error or what its client left there; either is reported to those waiting for event 5 |
| Sana2Outcomes.OfflineWriteTold | KSZ8851/devicedriver/device.c:1278-1284 | offline a write is refused with error 10 and wire error 3 |
| Sana2Outcomes.LongWriteTold | KSZ8851/devicedriver/device.c:1270-1277 | too long a write is refused with error 6, and those waiting for event 1 are told |
| Sana2Outcomes.BroadcastToAll | KSZ8851/devicedriver/device.c:1111-1116 | a broadcast goes out to the address of all ones, whatever its client put there, other writes to their own |
| Sana2Outcomes.FreshUnitIs | KSZ8851/devicedriver/device.c:290-404 | the open that builds a unit leaves it offline, unconfigured, with the chip's address, one opener and nothing waiting |
| Sana2Witnesses.OrphanSurvivesFlush | KSZ8851/devicedriver/device.c:730-760 | a run from a closed device after which a flush is completed and an orphan read still queued |
| Sana2Witnesses.OrphanSurvivesOffline | KSZ8851/devicedriver/device.c:1504-1526 | the same for going offline, the unit offline with an orphan read |
| Sana2Dispatch.DispatchExact | KSZ8851/devicedriver/device.c:1391-1451 | per opener at most the earliest fitting read goes, if its client accepts the packet; all others keep place and order; when the orphan list's head goes |
| Sana2Dispatch.HeadOfferedExactly | KSZ8851/devicedriver/device.c:1434-1446 | the first orphan read is offered the packet if and only if the flag is clear, its filter's answer aside; it leaves the list if and only if it was offered and its filter accepted |
| Sana2Dispatch.RejectionKeepsType | KSZ8851/devicedriver/device.c:1338-1342 | a read rejected by its filter goes on fitting exactly the packets it fitted |
| Sana2Dispatch.FlagExact | KSZ8851/devicedriver/device.c:1406-1436 | the delivered flag says what the last opener with a fitting read made of the packet |
| Sana2Dispatch.OneOpener | KSZ8851/devicedriver/device.c:1406-1436 | with one opener a willing orphan read takes a received packet if and only if that opener did not get it |
| Sana2Dispatch.OneOpenerOffers | KSZ8851/devicedriver/device.c:1406-1446 | with one opener the first orphan read, willing or not, is offered exactly the packets that opener did not get |
| Sana2Dispatch.OrphanToo | KSZ8851/devicedriver/device.c:1425 | a willing orphan read takes a received packet that some opener got if and only if one got it and the last one with a fitting read did not |
| Sana2Delivery.OnlyFittingLeave | KSZ8851/devicedriver/device.c:1409-1424 | a read that leaves its opener's queue had as type 256 times byte 12 plus byte 13 of the packet, or both are at most 1500; no read ahead of it had |
| Sana2Delivery.NobodyFits | KSZ8851/devicedriver/device.c:1409-1424 | an opener none of whose reads has that property keeps its queue and its records |
| Sana2Delivery.FirstFittingGoes | KSZ8851/devicedriver/device.c:1409-1424 | the first read that has it goes if and only if its client accepts the packet, the others keep place and order |
| Sana2Delivery.OthersUntouched | KSZ8851/devicedriver/device.c:1391-1451 | every other queued read keeps its record |
| Sana2Delivery.FirstFittingHolds | KSZ8851/devicedriver/device.c:1308-1381 | once accepted it is completed with the packet's addresses, type, length and data, and with broadcast and multicast flags by the destination, or with error 1 if the copy failed |
| Sana2Order.OrderedStep | KSZ8851/devicedriver/device.c:1071-1602 | every event keeps all lists in the order in which their requests were begun |
| Sana2Order.ReadsInOrder | KSZ8851/devicedriver/device.c:1553 | after every run two waiting reads of one opener stand in its queue in the order they were begun in |
| Sana2Order.OthersInOrder | KSZ8851/devicedriver/device.c:1085-1827 | so do orphan reads, event requests and those in the unit's port |
| Sana2Order.FirstComeFirstServed | KSZ8851/devicedriver/device.c:1391-1451 | after every run, of an opener's reads that fit a packet the one begun first gets it, if its client takes it, and all others go on waiting as they were |
| Sana2Witnesses.DeliveredTwice | KSZ8851/devicedriver/device.c:1425 | for every packet a run from a closed device in which it arrives once and is completed without error both by a read and by an orphan read, with the same data |
| AmigaExplorer.Explorer.WriteMessage | tools/lxamiga.pl:271-302 | writes header, header checksum, payload and payload checksum and counts the sequence up |
| AmigaExplorer.Explorer.ReadMessage | tools/lxamiga.pl:238-330 | reads a message; wrong checksums are counted and change nothing else |
| AmigaExplorer.Explorer.PutMultipart | tools/lxamiga.pl:426-492 | the whole exchange of the sending side, with every way it can die |
| AmigaExplorer.Explorer.GetMultipart | tools/lxamiga.pl:382-424 | the whole exchange of the fetching side, with every way it can die; both loops end |
| AmigaExplorer.ReceiveWire | tools/lxamiga.pl:238-330 | what one side frames the other receives, both checksums right |
| AmigaExplorer.DamageReported | tools/lxamiga.pl:253-261 | a payload damaged within 32 consecutive bits is always reported, and handed on damaged |
| AmigaExplorer.PutPartsSays | tools/lxamiga.pl:454-491 | asked once per part and once more, the sending side gives its answers in order and ends |
| AmigaExplorer.PutSays | tools/lxamiga.pl:426-492 | the sending side's whole output, for every payload the guard lets through |
| AmigaExplorer.GetsAll | tools/lxamiga.pl:395-415 | offsets and total check, the parts are put together to the payload |
| AmigaExplorer.GetReceives | tools/lxamiga.pl:382-424 | the fetching side's result and whole output |
| AmigaDialogue.RoundsAdvance | tools/lxamiga.pl:382-492 | told only what the other side wrote before, each side writes two messages more in every round, exactly the next ones of its whole output |
| AmigaDialogue.TransferCompletes | tools/lxamiga.pl:238-492 | round trip without deadlock: from the opening request alone each round makes the fetching side say more, until after as many rounds as parts and two more both sides have ended, with nothing unread and no checksum wrong, the fetching side with the payload unchanged |
| AmigaExplorer.PartsInOrder | tools/lxamiga.pl:464-475 | the i-th part starts with the offset 508 times i and holds exactly the bytes from there on, at most 512 bytes in all |
| AmigaExplorer.AnnouncedFirst | tools/lxamiga.pl:448-450 | a put announces the payload length and 0x200, the longest part |
| AmigaExplorer.AnswersAreParts | tools/lxamiga.pl:457-475 | what the sending side writes is acknowledgements alternating with exactly these parts |
| AmigaExplorer.PartCount | tools/lxamiga.pl:457-479 | the number of parts, of at most 508 bytes each |
| AmigaExplorer.WireLayout | tools/lxamiga.pl:271-302 | where kind, length, sequence number, payload and both checksums stand in a message, byte by byte |
| AmigaExplorer.HeaderRead | tools/lxamiga.pl:308-330 | the receiver reads from any twelve bytes the numbers that stand there |
| AmigaRefusals.OpenedByOther | tools/lxamiga.pl:433-446 | a first message that is not a request is acknowledged and answered by one message 0; it ends the put if and only if it says that the file exists and overwriting was not asked for |
| AmigaRefusals.ExistingFileKept | tools/lxamiga.pl:441-446 | then exactly the acknowledgement and this message were written, none of the payload |
| AmigaRefusals.SentAllTheSame | tools/lxamiga.pl:441-492 | after any other such message the whole payload is sent |
| AmigaRefusals.OnlyRequestsAreAnswered | tools/lxamiga.pl:457-461 | in the middle of a put any message but a request ends it, and no further part goes out |
| AmigaRefusals.OnlyAnnouncementsStart | tools/lxamiga.pl:388-390 | a fetch is only started by message 3 |
| AmigaRefusals.FetchedAsAnnounced | tools/lxamiga.pl:392-423 | a fetch that succeeds returns as many bytes as were announced, whatever the other side sends |
| AmigaRefusals.MisplacedPartStops | tools/lxamiga.pl:405-408 | a part with another offset than the bytes so far ends the fetch before it is acknowledged |
| AmigaRefusals.OthersEndTheFetch | tools/lxamiga.pl:415-423 | any message but a part ends the fetch, right if and only if the bytes so far are as many as announced |
| AmigaRefusals.NothingAnnounced | tools/lxamiga.pl:409-411 | after an announcement of 0 bytes the first part stops the fetch, by the progress display's division |
| AmigaRefusals.AckExact | tools/lxamiga.pl:332-340 | for any input an exchange writes its message once and succeeds if and only if the next four bytes are "PkOk" |
| AmigaRefusals.NoMessage | tools/lxamiga.pl:238-250 | less than twelve bytes are no message: a timeout, or a bad header |
| AmigaRefusals.UnacknowledgedOpening | tools/lxamiga.pl:433-452 | without its acknowledgement neither the announcement nor the answer to another first message is followed by anything |
| AmigaRefusals.UnacknowledgedPartStops | tools/lxamiga.pl:457-491 | nor is any part or the end message |
| AmigaRefusals.UnacknowledgedFetchStops | tools/lxamiga.pl:398-400 | nor is a request of the fetching side |
| AmigaRefusals.SucceedsOnlyWhole | tools/lxamiga.pl:426-492 | whatever the other side sends, a put that ends without error has written the announcement, every part and the end message, each once and in order |
| AmigaRefusals.OnlyRequestsWritten | tools/lxamiga.pl:382-424 | whatever the other side sends, a fetch that ends without error has written the acknowledgement of the announcement and then only requests, each followed by an acknowledgement |
| AmigaRefusals.MismatchesCounted | tools/lxamiga.pl:253-330 | of any twelve bytes and payload exactly the wrong checksums are counted |
| AmigaExplorer.LoneZeroIsNotSent | tools/lxamiga.pl:429 | the payload "0" is taken for none |
| MacText.HexStringToU32 | KSZ8851/devicedriver/configfile.c:162-177 | the positional value modulo 2 to the 32, for any length |
| MacText.ValueOfConcat | KSZ8851/devicedriver/configfile.c:162-177 | the value is positional: leading digits are worth 16 to the number of digits behind them |
| MacText.CaseIgnored | KSZ8851/devicedriver/configfile.c:166-172 | letter case does not matter |
| MacText.Tokenizer.Strtok | KSZ8851/devicedriver/configfile.c:190-194 | skips delimiters, returns the token up to the next one and goes on behind it |
| MacText.ParseAddress | KSZ8851/devicedriver/configfile.c:189-194 | each of the first six tokens sets one byte, bytes without a token stay |
| MacText.ReadKeyMacAddress | KSZ8851/devicedriver/configfile.c:186-200 | the parsed address, or the default one without a configuration line |
| MacText.TextRoundTrip | KSZ8851/devicedriver/device.c:2249-2255 | reading back the printed form of any address gives the address |
| MacText.TokensAreWords | KSZ8851/devicedriver/configfile.c:190-194 | the tokens are the maximal runs of characters other than colons and blanks, for any runs of these between them |
| MacText.AnySpellingRead | KSZ8851/devicedriver/configfile.c:162-194 | six pairs of hexadecimal digits in either letter case, with any runs of colons and blanks between, before and behind, are read as the address |

## Left out

- MulticastFilter.CalcCrc: for less than 65536 bytes, because on longer data the source never returns (`CalcCrcEnds`).
- AmigaDialogue.TransferCompletes: a side that has read all there is stops there and, when there is more, is run again from its start; that is the same as waiting, because writes arrive whole and neither side writes anything after a read that found nothing.
- Sana2Unit.DeviceUnit.Receive: what is read through the entry of a closed opener, which is freed memory; the model goes on with the answers of that opener's client. `OrphanLosesOpener` says exactly when that happens.
- Sana2Unit.DeviceUnit.FulfillReadIORequest: the same.
- The initialisation of the chip, which also finds out and sets the endian mode: sends require that chip and driver agree on it, which every reception keeps (`HandlerKeepsMode`) and every good one brings about (`GoodSetsMode`). The operation sequences of going online, going offline and setting the address are those functions themselves, straight lines without state.
- A driver call made by the same task inside the delivery window of a received packet is not covered; the device's own packet hook makes none.
- Races between commands: each request-engine command is atomic. The source does not keep two callers out of the shared send buffer (device.c:2092), nor an S2_OFFLINE out of another caller's test of the online bit.
- The request records are a table by identity instead of linked nodes; a request is unlinked from the list the caller names, where exec's Remove needs no list. A buffer management entry is a number that is not reused while it is open.
- The unit's storage is one object that is reset and reused, where the source allocates and frees it; the chip driver's context is static in the source too.
- DoEvent is called with one event bit at a time throughout the source, and the model has one.
- Exclusive and promiscuous mode are fields of their own; the source keeps them in lib_Flags among exec's bits. The loopback bit, which a close clears (device.c:463), is the bit exec calls delayed expunge, which line 487 tests next, so that a close cancels a delayed expunge; loopback mode, delayed expunge and DeviceExpunge are not modelled.
- Callbacks of clients (copy, DMA and filter hooks, in copybuffs.c), signal and memory allocation, process creation and the probe for the chip are answers given to each step.
- Query, statistics and type-tracking commands are one command that completes its request once with whatever result; DevCmdAddMulti and DevCmdRemMulti are switched off in the source.
- A missing reply port (Alert at device.c:1199) and the replies' journey back to the client.
- ksz8851Init, soft reset (whose detection test is inverted, ksz8851.c:269 and 287), endianness probing, which runs without Disable, byte enables and PHY negotiation. ksz8851SendPacketPossible is called by nobody.
- The chip is what the driver's comments say of it: ISR bits clear when written as one, LDIS clears through PMECR, reading a frame out dequeues it, a register selection is used up by one data access. The data sheet is not in the repository.
- The content of a frame's check sequence and of padding beyond the payload: the chip makes the former, and the latter is whatever memory follows.
- Progress is shown for a chip that pauses; fairness under endless traffic is not.
- Reading the configuration file through ReadArgs and FGets; its line is a string given to the parser.
- The serial or TCP link is a reliable byte sequence, where an empty read after all retries is the end of it. Login, directory listing, file dates and disk formatting of the transfer tool.
