# Ethernet FMC data path and tooling: a verified model

This project models, in Dafny, the parts of the repository that move frames and MDIO commands between
software and hardware, and four self-contained algorithms of its build and boot tooling, and proves what
they keep over every run.

| files | what they model |
|---|---|
| `LinuxRx`, `LinuxRxDriver` | the receive ring of the Linux driver: DMA callbacks, the lock-free list, NAPI, start and stop, as interleaved atomic steps with a ledger of buffers and mappings (`Ledger`); then the same code on its slot array |
| `LinuxRxFrames`, `LinuxRxRefill` | which transfers reach the stack, and that buffers are put back, told from the events alone |
| `LinuxTx`, `LinuxTxDriver` | the transmit ring with its free-running indices, flow control and callbacks that name no buffer |
| `LinuxTxFrames` | which frames are sent, with which lengths and counters, told from the events alone |
| `LinuxPort` | open, stop and MTU change, built from the two |
| `RegFile`, `RegFileCore` | the AXI-Lite register file as a next-state function, and its always block assignment by assignment |
| `RegMap`, `RegCounts` | what software sees of it: strobed writes, read-back, flags; and address by address, counters and pulses included |
| `AxiLite`, `MdioMailbox` | the bus protocol and the one-deep command mailbox over runs of it |
| `Mdio`, `MdioDrivers` | mailbox, an abstract MDIO master and PHY registers, under the Linux and the bare-metal driver |
| `HwStats`, `HwStatsDriver` | clear-on-read counters and sticky flags under a polling reader |
| `MacifTx`, `MacifTxDriver` | the lwIP driver's transmit descriptors and the pbuf chains they pin |
| `MacifRx`, `MacifRxDriver` | its receive descriptors, the queue from interrupt to main loop, and the pbuf pool of four ports |
| `MacifRxFrames` | which frames the stack is offered, what becomes of each answer, and the counters, told from the events alone |
| `FileSystem`, `Order` | a file system with symbolic links: what a path leads to, and to what after a removal; and the order of listings |
| `Prune`, `Pruned` | directory pruning as it runs, and what it amounts to |
| `Stages`, `KeepBoot` | the skip tests of the build stages, and the clean that keeps deliverables, in any tree |
| `InputWalk` | what walking an input directory finds |
| `KeepBootPlain`, `KeepBootInputs`, `KeepBootCases`, `KeepBootDriver` | the clean where no link lies on a path that matters, area by area; the smallest trees in which work is left; and the clean as it runs |
| `KeepBootNames`, `StageNames` | the clean and the skip tests by the names of the files: what goes, what stays, and when a stage has nothing to do |
| `Yocto`, `YoctoRuns` | the input stamp, and freshness over runs of edits and builds |
| `YoctoHandOver` | what a build takes over from the repository by time stamps |
| `Ocm` | the FSBL's check for contiguous on-chip memory |
| `Fru` | the FSBL's walk over the FRU multirecord area and its choice of the VADJ rail |

Each concurrent part is a machine of atomic steps: a state, a set of events with their enabling
conditions, and one function per event. Its theorems speak of every legal sequence of events. The
`...Driver` and `...Core` files hold the code in its own form, with fields and arrays updated in place and
loops, and each method is proved to take the machine through the corresponding steps; wherever something
else may run in between, the caller supplies what happens there. The `...Frames` files keep a book beside the
machine: what the hardware reported and how the kernel or the stack answered. Its rules do not mention the
steps, so its theorems say what a step must do, not what it does.

`dafny verify dfyconfig.toml` checks the whole project.

## What the proofs found

- During a drain `taxi_tx_complete` re-opens the queue that `netif_tx_disable` stopped, exactly when at most
  48 frames were in flight; only the stack's promise not to transmit keeps frames out
  (`LinuxTx.DrainReopensQueue`, reached in `LinuxTx.DrainReopensOnOneFrame`).
- After a failed restart in `taxi_change_mtu` the port holds nothing although it still counts as running
  (`LinuxPort.Port.ChangeMtu`); the next stop or MTU change passes a released channel to the DMA engine
  (`LinuxPort.Port.Stop`).
- The pbuf pool of 2048 suffices while the stack and the main loop together hold at most 1284; counting
  only the stack's share is off by one (`MacifRx.OneInHandIsOneTooMany`).
- `prune_paths` does not honour a kept path that is its root or lies above it
  (`Pruned.KeptPathIsHonouredIff`), and one that runs through a symbolic link need not exist afterwards
  (`Pruned.KeptBehindALinkIsLost`; `Pruned.KeptStillExistsIff` says exactly when it does).
- The documentation of `keep_boot_plan` calls a following `all` a no-op. `KeepBoot.KeepBootKeepsNothingToDo`
  says exactly when it is one, whatever links the tree holds, and `KeepBootInputs.KeepBootIsANoOpIff` in terms
  of files and their times where no link lies on a path that is looked at. Three families of trees in which it
  is not: the boot file of the workspace removed is older than the XSA (`KeepBootCases.OldBootFileIsRebuilt`),
  an extra layer lies in an area that is cleared (`KeepBootCases.LayerInsideIsLost`), and the XSA is a link to a
  file beside it (`KeepBootCases.LinkedXsaIsLost`).
- Yocto images can be reported up to date although an input differs: when an input was edited while bitbake ran
  and put back afterwards (`YoctoRuns.EditDuringBuildHidesARevert`), when a stamp could not be written
  (`YoctoRuns.LostStampHidesAnEdit`), and when a build was killed between packaging and stamping
  (`YoctoRuns.KilledBuildHidesARevert`). Reports can be trusted exactly while the stamp says what the images
  were built from (`YoctoRuns.ReportsAreTrueIff`); the comment in `stage_yocto`, that an edit made while bitbake
  runs still reads as a change, holds while the edit stays (`YoctoRuns.EditsAreNoticed`).
- Removing `local.conf.append`, or a layer from `bblayers-extra.txt`, has the images built again with it
  (`YoctoHandOver.RemovedConfIsNotNoticed`, `YoctoHandOver.RemovedLayerStays`).
- A stamp is read back as written exactly when no path has a line break (`Yocto.StampRoundTrip`).
- The OCM check refuses memory that is all there when ranges overlap, or when a range that ends at
  0xfffc0000 is merged with it (`Ocm.OverlapIsRefused`, `Ocm.NeighbourBelowIsRefused`); `Ocm.AcceptsIff` gives
  the exact condition.
- The limits read from the FRU are up to 655350 mV but are passed on as 16-bit values; `Fru.SettingIsBestIff`
  says exactly when that changes the rail, and `Fru.HighLimitTurnsVadjOff` gives an image.

## Model

| member | source | states |
|---|---|---|
| `LinuxRx.EveryRunOwnsItsBuffers` | Linux/taxi-mac/taxi_mac.c:345-552 | in every interleaving of start, completion, poll and stop a slot is DMA-mapped, with the length in force, exactly when it holds an skb; every skb is in one slot, in the poll routine's hands, or was delivered or freed once; no kernel call is misused |
| `LinuxRx.DownLeavesNothing` | Linux/taxi-mac/taxi_mac.c:490-552 | after a stop, or a start that failed part-way, no mapping, skb, armed descriptor or list node is left and every skb ever allocated was disposed of |
| `LinuxRx.StoppedNeverRearms` | Linux/taxi-mac/taxi_mac.c:441-447 | once rx_running is cleared nothing is armed or mapped until the next start |
| `LinuxRx.HandOffIsFifo` | Linux/taxi-mac/taxi_mac.c:387-475 | rx_pending followed by the reverse of rx_done is one queue: a completion joins its end, the poll takes its front, no other step touches it |
| `LinuxRx.EveryRunDeliversInOrder` | Linux/taxi-mac/taxi_mac.c:387-488 | buffers are processed at most once, in the order of completion; no node is on two lists, or on a list while its buffer is armed |
| `LinuxRx.EveryRunKeepsWakeups` | Linux/taxi-mac/taxi_mac.c:396-485 | wherever callbacks fall around napi_complete_done and the second look, a non-empty list while the ring runs has NAPI scheduled or polling, or a step under way that will schedule it |
| `LinuxRx.EveryCompletionIsCounted` | Linux/taxi-mac/taxi_mac.c:412-437 | between two starts each completion taken is counted once, as a packet, an error or a drop |
| `LinuxRxFrames.EveryRunDeliversItsFrames` | Linux/taxi-mac/taxi_mac.c:387-439 | told from the events alone: in every interleaving the stack gets exactly the transfers that succeeded with a residue within the buffer and at least 14 bytes received and whose replacement buffer was granted, in order of completion, each in its own skb with its length; packets and bytes are theirs, every other transfer adds one error, or one drop if only the replacement was refused |
| `LinuxRxFrames.EveryTransferMeetsItsOutcome` | Linux/taxi-mac/taxi_mac.c:401-439 | in any run, processing a transfer delivers its skb with mtu + 22 - residue bytes and counts one packet, or delivers nothing and adds one drop or one error, by what the engine reported of it |
| `LinuxRxFrames.TakesTheOldest` | Linux/taxi-mac/taxi_mac.c:462-472 | the poll takes the oldest transfer reported and not yet taken, and leaves its loop exactly when there is none |
| `LinuxRxRefill.EveryRunRefills` | Linux/taxi-mac/taxi_mac.c:401-453 | in a ring that is up each of the 128 slots has a buffer with the engine, waiting, or in the poll routine's hands, but for one for each refill that was refused since the start |
| `LinuxRx.EveryRunIssues` | Linux/taxi-mac/taxi_mac.c:479-547 | wherever no poll is at work, the engine of a ring that is up has been started on every armed buffer |
| `LinuxRx.StoppedStep` | Linux/taxi-mac/taxi_mac.c:401-515 | no single step re-arms, maps or restarts a ring that was told to stop |
| `LinuxRx.CallbackKeeps` | Linux/taxi-mac/taxi_mac.c:387-398 | a completion keeps the invariant: its node joins the queue and its descriptor is no longer armed |
| `LinuxRx.TakeKeeps` | Linux/taxi-mac/taxi_mac.c:462-472 | taking the head of the queue, reversing rx_done if need be, keeps the invariant |
| `LinuxRx.SubmitKeeps` | Linux/taxi-mac/taxi_mac.c:345-385 | each of the four outcomes of taxi_rx_submit leaves the ledger and the slot consistent, with or without the new buffer |
| `LinuxRx.ProcessKeeps` | Linux/taxi-mac/taxi_mac.c:401-439 | delivering a frame, or keeping its buffer on an error or a failed allocation, keeps the invariant |
| `LinuxRx.RearmKeeps` | Linux/taxi-mac/taxi_mac.c:441-453 | re-arming under the lock, or freeing the buffer when the ring stops or the submit fails, keeps the invariant |
| `LinuxRx.FillKeeps` | Linux/taxi-mac/taxi_mac.c:527-543 | one turn of the start loop keeps the invariant whether the kernel grants or refuses it |
| `LinuxRx.ReleaseKeeps` | Linux/taxi-mac/taxi_mac.c:505-514 | the clean-up loop empties every slot and gives back exactly what the ring held |
| `LinuxRx.CleanupKeeps` | Linux/taxi-mac/taxi_mac.c:502-514 | the end of a stop leaves an empty ring and empty lists |
| `LinuxRx.StepKeeps` | Linux/taxi-mac/taxi_mac.c:345-552 | every atomic step keeps the invariant |
| `LinuxRx.RunKeeps` | Linux/taxi-mac/taxi_mac.c:345-552 | so does every run |
| `LinuxRxDriver.RxPath.RxSubmit` | Linux/taxi-mac/taxi_mac.c:345-385 | the method on the slot array is the step the machine takes, and reports success exactly when the engine accepts |
| `LinuxRxDriver.RxPath.RxComplete` | Linux/taxi-mac/taxi_mac.c:387-396 | likewise for the callback up to its scheduling of NAPI; what its marks mean for each transfer is LinuxRxFrames.EveryTransferMeetsItsOutcome |
| `LinuxRxDriver.RxPath.ReverseOrder` | Linux/taxi-mac/taxi_mac.c:467 | the reversal loop yields the list in order of completion |
| `LinuxRxDriver.RxPath.TakeNode` | Linux/taxi-mac/taxi_mac.c:462-471 | the head of the poll loop is the take step |
| `LinuxRxDriver.RxPath.ProcessBuffer` | Linux/taxi-mac/taxi_mac.c:401-439 | taxi_rx_process up to its label is the process step |
| `LinuxRxDriver.RxPath.RearmBuffer` | Linux/taxi-mac/taxi_mac.c:441-453 | the rest of it is the re-arm step |
| `LinuxRxDriver.RxPath.FillOne` | Linux/taxi-mac/taxi_mac.c:527-543 | one turn of the start loop is the fill step |
| `LinuxRxDriver.RxPath.ReleaseBuffers` | Linux/taxi-mac/taxi_mac.c:503-514 | the clean-up loop is the clean-up step |
| `LinuxRxDriver.RxPath.Poll` | Linux/taxi-mac/taxi_mac.c:456-488 | with anything happening at every preemption point, a poll handles exactly as many buffers as it reports, never more than its budget, and one that returns early completed NAPI and then looked at rx_done again |
| `LinuxRxDriver.RxPath.PollOne` | Linux/taxi-mac/taxi_mac.c:462-475 | one turn takes, processes and re-arms one buffer, or finds both lists empty |
| `LinuxRxDriver.RxPath.Finish` | Linux/taxi-mac/taxi_mac.c:480-485 | the look at rx_done comes after napi_complete_done, whoever polls in between |
| `LinuxRxDriver.RxPath.RingStop` | Linux/taxi-mac/taxi_mac.c:490-515 | from a ring that is up, or a start that failed, every stop ends with the ring down |
| `LinuxRxDriver.RxPath.RingStart` | Linux/taxi-mac/taxi_mac.c:517-552 | a start succeeds exactly when all 128 buffers are granted, with buffers for the MTU, and otherwise ends with the ring down |
| `LinuxRxDriver.RxPath.Preempt` | Linux/taxi-mac/taxi_mac.c:387-488 | whatever other contexts do at a preemption point leaves the preempted routine its place |
| `LinuxRxDriver.StepUndisturbed` | Linux/taxi-mac/taxi_mac.c:387-515 | no step of another context moves the poll loop, the tail of a poll or a start or stop along |
| `LinuxRxDriver.WaitingShrinks` | Linux/taxi-mac/taxi_mac.c:456-500 | a poll in progress when napi_disable waits for it ends in a bounded number of steps |
| `LinuxTx.EveryRunIsAFifo` | Linux/taxi-mac/taxi_mac.c:558-704 | through any wrap of the 32-bit indices the occupied slots are exactly the at most 63 from tail to head, holding the frames in flight in order; the retired frames are the oldest accepted ones |
| `LinuxTx.EveryRunOwnsItsFrames` | Linux/taxi-mac/taxi_mac.c:558-704 | every accepted skb and mapping is released exactly once on the failure, completion and stop paths; a closed ring holds nothing |
| `LinuxTx.BusyIsUnreachable` | Linux/taxi-mac/taxi_mac.c:613-617 | the NETDEV_TX_BUSY branch is never taken |
| `LinuxTx.EveryRunControlsFlow` | Linux/taxi-mac/taxi_mac.c:587-655 | while the queue is live a full ring implies a stopped queue, and a stopped queue has at least 48 frames in flight |
| `LinuxTx.CompletionsWake` | Linux/taxi-mac/taxi_mac.c:587-591 | completing the frames in flight one by one wakes a stopped queue exactly when 47 are left |
| `LinuxTx.DrainReopensQueue` | Linux/taxi-mac/taxi_mac.c:587-591 | during a drain a completion re-opens the queue netif_tx_disable stopped, exactly when at most 48 frames were in flight |
| `LinuxTx.DrainReopensOnOneFrame` | Linux/taxi-mac/taxi_mac.c:587-591 | a run that gets there: one frame in flight when the interface is stopped |
| `LinuxTxFrames.EveryRunSendsWhatIsOffered` | Linux/taxi-mac/taxi_mac.c:558-669 | told from the events alone: the engine is given exactly the frames for which nothing failed, in order, each with the length the stack offered and mapped with it while in flight; packets and bytes are those of the frames whose completion was good, errors the number of the others, drops the frames that failed before |
| `LinuxTx.EveryRunIssues` | Linux/taxi-mac/taxi_mac.c:639-669 | the engine has been started on every frame it was given |
| `LinuxTx.SpaceIsFree` | Linux/taxi-mac/taxi_mac.c:613-654 | CIRC_SPACE on the wrapping indices is the capacity less the frames in flight |
| `LinuxTx.CheckKeeps` | Linux/taxi-mac/taxi_mac.c:613-617 | the space check keeps the invariant and reserves a slot |
| `LinuxTx.PrepareKeeps` | Linux/taxi-mac/taxi_mac.c:619-637 | so do linearize, map and prepare, failed or not |
| `LinuxTx.SubmitKeeps` | Linux/taxi-mac/taxi_mac.c:639-669 | so does the submit section, accepted or refused |
| `LinuxTx.CompleteKeeps` | Linux/taxi-mac/taxi_mac.c:558-595 | a completion retires the oldest frame in flight and keeps the invariant |
| `LinuxTx.FlushKeeps` | Linux/taxi-mac/taxi_mac.c:692-700 | the stop loop releases every frame still in the ring, once |
| `LinuxTx.StepKeeps` | Linux/taxi-mac/taxi_mac.c:558-704 | every atomic step keeps the invariant |
| `LinuxTx.RunKeeps` | Linux/taxi-mac/taxi_mac.c:558-704 | so does every run |
| `LinuxTxDriver.TxPath.CheckSpace` | Linux/taxi-mac/taxi_mac.c:613-617 | the space check as it runs; the length it carries on is pinned in StartXmit |
| `LinuxTxDriver.TxPath.PrepareFrame` | Linux/taxi-mac/taxi_mac.c:619-637 | linearize, map, prepare, with the clean-up of each failure |
| `LinuxTxDriver.TxPath.SubmitFrame` | Linux/taxi-mac/taxi_mac.c:639-664 | the critical section on the slot array, accepted or refused |
| `LinuxTxDriver.TxPath.TxComplete` | Linux/taxi-mac/taxi_mac.c:558-595 | the callback retires the slot at tail, told only how the transfer ended |
| `LinuxTxDriver.TxPath.TxRingStop` | Linux/taxi-mac/taxi_mac.c:685-704 | the stop loop on the slot array is the flush of the machine |
| `LinuxTxDriver.TxPath.StartXmit` | Linux/taxi-mac/taxi_mac.c:597-669 | never busy; unless something fails the frame offered is mapped with its length, lies with it in the slot at head, is given to the engine with it and joins the end of the ring; otherwise it is counted as dropped; and which events the call amounts to, completions in between included |
| `LinuxPort.Port.RequestDma` | Linux/taxi-mac/taxi_mac.c:718-735 | both channels or neither |
| `LinuxPort.Port.DatapathStart` | Linux/taxi-mac/taxi_mac.c:744-762 | succeeds exactly when everything asked for is granted, with the length limits written as mtu + 21 and buffers of mtu + 22 bytes; otherwise the port holds nothing |
| `LinuxPort.Port.DatapathStop` | Linux/taxi-mac/taxi_mac.c:764-780 | leaves no channel, buffer, mapping or list node on either side, whatever the drain left in flight, once each completion of the drain has been handled |
| `LinuxPort.Port.Open` | Linux/taxi-mac/taxi_mac.c:792-817 | comes up exactly when everything is granted, and holds nothing when it fails, also when only the PHY is missing |
| `LinuxPort.Port.Stop` | Linux/taxi-mac/taxi_mac.c:819-830 | a port that was up holds nothing afterwards; one that a failed restart left without channels hands a released channel to the DMA engine and does not return |
| `LinuxPort.Port.ChangeMtu` | Linux/taxi-mac/taxi_mac.c:832-857 | on success the port is up with buffers of the new size; a failed restart leaves it holding nothing although it still counts as running; a further change then meets a released channel and leaves the MTU as it was |
| `RegFileCore.Core.Tick` | Vivado/src/hdl/taxi_rgmii_mac_core.sv:195-325 | one clock edge of the always block, assignment by assignment, is the next-state function the other register-file theorems are about |
| `RegFileCore.Core.CaptureWrite` | Vivado/src/hdl/taxi_rgmii_mac_core.sv:208-224 | address and data capture, and the acknowledgement of a response |
| `RegFileCore.Core.CountEvents` | Vivado/src/hdl/taxi_rgmii_mac_core.sv:226-234 | sticky flags and event counters |
| `RegFileCore.Core.HandOff` | Vivado/src/hdl/taxi_rgmii_mac_core.sv:236-243 | the mailbox before a write: command handed over, read data taken in |
| `RegFileCore.Core.WriteRegister` | Vivado/src/hdl/taxi_rgmii_mac_core.sv:245-286 | the register write overrides what was assigned before it |
| `RegFileCore.Core.QueueCommand` | Vivado/src/hdl/taxi_rgmii_mac_core.sv:271-282 | a command is queued if there is room and marked dropped otherwise |
| `RegFileCore.Core.ServeRead` | Vivado/src/hdl/taxi_rgmii_mac_core.sv:288-323 | the address handshake, then the data one edge later |
| `RegFileCore.Core.ResetRegisters` | Vivado/src/hdl/taxi_rgmii_mac_core.sv:196-206 | reset values |
| `RegMap.WriteReadsBack` | Vivado/src/hdl/taxi_rgmii_mac_core.sv:245-320 | a whole word written to a control register is what reads show after that edge, in the register's own width |
| `RegMap.ReadsBackUntilWritten` | Vivado/src/hdl/taxi_rgmii_mac_core.sv:245-320 | and however many edges later, whatever else is written, until the register is next written or reset |
| `RegMap.OnlyItsOwnWrites` | Vivado/src/hdl/taxi_rgmii_mac_core.sv:246-286 | no other write, event or hand-over changes a control register |
| `RegMap.MergeIsBytewise` | Vivado/src/hdl/taxi_rgmii_mac_core.sv:191-193 | merging takes exactly the strobed bytes from the new word |
| `RegMap.FlagChangesOnlyWhenTold` | Vivado/src/hdl/taxi_rgmii_mac_core.sv:227-261 | a flag rises only with its error pulse, falls only by a 1 written to its own bit, and a pulse at the clearing edge wins |
| `RegCounts.CounterCounts` | Vivado/src/hdl/taxi_rgmii_mac_core.sv:226-234 | by address: the counters at 0x20 to 0x34 count the pulses for good and bad received frames, good and bad sent frames, and receive and transmit overflows; over any run in which it is neither written nor reset, a counter grows by exactly the pulses behind it, in 32 bits |
| `RegCounts.WriteClears` | Vivado/src/hdl/taxi_rgmii_mac_core.sv:262-268 | any write to a counter's address leaves it at zero, even at an edge with a pulse |
| `RegCounts.FlagTells` | Vivado/src/hdl/taxi_rgmii_mac_core.sv:226-261 | bit k of FLAGS shows, over any run in which no 1 is written to it, exactly whether it was set before or its pulse has come since |
| `RegCounts.FlagClears` | Vivado/src/hdl/taxi_rgmii_mac_core.sv:259-261 | a 1 written to it, with any strobes, clears it unless its pulse comes at that edge |
| `RegCounts.PartialWrite` | Vivado/src/hdl/taxi_rgmii_mac_core.sv:191-258 | a write to the gap, the two frame lengths or the MDC divider changes just the strobed bytes of what reads show there |
| `RegCounts.ControlWrite` | Vivado/src/hdl/taxi_rgmii_mac_core.sv:248-253 | CTRL takes its four bits from the low byte if that is strobed and otherwise stays |
| `RegCounts.FixedRegisters` | Vivado/src/hdl/taxi_rgmii_mac_core.sv:295-320 | identification, version and status show their fixed values and the live signals, and unmapped addresses read as zero |
| `RegCounts.ReadsAfterReset` | Vivado/src/hdl/taxi_rgmii_mac_core.sv:196-206 | what every register reads as after a reset |
| `RegCounts.ManagementByAddress` | Vivado/src/hdl/taxi_rgmii_mac_core.sv:236-320 | the command mailbox at 0x40, its data at 0x44 and the meaning of the three status bits at 0x48 |
| `AxiLite.WritesAreFaithful` | Vivado/src/hdl/taxi_rgmii_mac_core.sv:186-286 | for a master that holds valid and payload until accepted (sections A3.2.1 and A3.3.1 of ARM IHI 0022): the i-th write executed uses the i-th accepted address and data, each write has one response, and none precedes its handshakes |
| `AxiLite.ReadsAreFaithful` | Vivado/src/hdl/taxi_rgmii_mac_core.sv:288-323 | the i-th R handshake delivers what the i-th accepted address read, once, and never before the address |
| `AxiLite.OutputsAreStable` | Vivado/src/hdl/taxi_rgmii_mac_core.sv:222-293 | RDATA and both valid outputs are held until the master takes them |
| `AxiLite.WritesMakeProgress` | Vivado/src/hdl/taxi_rgmii_mac_core.sv:186-249 | over every run of a master that takes responses and keeps offering, a write executes at every other edge, neither less nor more often |
| `AxiLite.OfferedWriteIsPerformed` | Vivado/src/hdl/taxi_rgmii_mac_core.sv:208-249 | the very address or data offered at an edge is executed within four edges, two if nothing is captured or unanswered |
| `AxiLite.ReadsMakeProgress` | Vivado/src/hdl/taxi_rgmii_mac_core.sv:288-323 | over every run of a master that takes its data and keeps asking, a read is delivered at every third edge |
| `AxiLite.OfferedReadIsServed` | Vivado/src/hdl/taxi_rgmii_mac_core.sv:288-323 | the very address offered at an edge has its register's value delivered within six edges, three if no read is under way |
| `AxiLite.TickKeeps` | Vivado/src/hdl/taxi_rgmii_mac_core.sv:195-325 | every edge keeps the bus invariant |
| `AxiLite.WriteKeeps` | Vivado/src/hdl/taxi_rgmii_mac_core.sv:208-249 | the write channels keep accepted addresses and data in step with the writes executed |
| `AxiLite.ReadKeeps` | Vivado/src/hdl/taxi_rgmii_mac_core.sv:288-323 | the read channels keep accepted addresses in step with samples and deliveries |
| `MdioMailbox.MailboxTellsTheTruth` | Vivado/src/hdl/taxi_rgmii_mac_core.sv:236-282 | in every run the accepted commands are those handed over plus the one pending; the drop bit tells whether the latest write was rejected; read-valid tells whether a read completed since the last accepted command; the data register holds the last read |
| `MdioMailbox.WriteIsQueuedUnlessFull` | Vivado/src/hdl/taxi_rgmii_mac_core.sv:271-282 | in any run a write to MDIO_CMD is queued unless a command is pending that the master does not take at that very edge; it is then dropped and the drop bit says so |
| `MdioMailbox.OfferIsStable` | Vivado/src/hdl/taxi_rgmii_mac_core.sv:237-282 | a command on offer is neither withdrawn nor changed until taken, whatever is written meanwhile |
| `MdioMailbox.EdgeTruthful` | Vivado/src/hdl/taxi_rgmii_mac_core.sv:236-282 | one edge, with a hand-over, a read completion and a write in any combination, keeps the registers truthful |
| `MdioMailbox.RegisterFileHasIt` | Vivado/src/hdl/taxi_rgmii_mac_core.sv:236-319 | the register file contains this mailbox, driven by writes to MDIO_CMD and read through MDIO_STATUS and MDIO_RDATA |
| `HwStats.TotalsAreLowerBounds` | Linux/taxi-mac/taxi_mac.c:938-964 | totals never decrease; between polls a total plus the live register never exceeds the true count; below 2^32 events the only ones missing fell between a counter's read and its clear |
| `HwStats.CountsAreTrue` | Vivado/src/hdl/taxi_rgmii_mac_core.sv:226-234 | what the totals are compared with is the number of edges with the event |
| `HwStats.NoFlagIsSilent` | Vivado/src/hdl/taxi_rgmii_mac_core.sv:226-261 | every rising edge of a flag has been counted by a poll, except the one the flag still shows |
| `HwStats.FallingFlagIsCounted` | Vivado/src/hdl/taxi_rgmii_mac_core.sv:259-261 | a flag falls only at the edge where the poll that saw it counts it |
| `HwStats.PollActsThroughRegisters` | Vivado/src/hdl/taxi_rgmii_mac_core.sv:259-316 | writing back the flags word clears exactly the flags it showed; writing a counter clears that counter and no other; reads return the registers |
| `HwStats.StepKeeps` | Linux/taxi-mac/taxi_mac.c:938-964 | every edge, with any hardware events, keeps the counting invariant |
| `HwStatsDriver.Port.GetEthtoolStats` | Linux/taxi-mac/taxi_mac.c:938-964 | a poll, with pulses at every edge, reports totals no larger than the true counts that leave out no event from before the call but those that fell between a read and its clear; exactly the rising edges of each flag that are not still pending; and counts each flag that showed when it was called |
| `HwStatsDriver.Port.PollCounter` | Linux/taxi-mac/taxi_mac.c:945-952 | the turn of the loop for one counter brings its total up to every event before it, but for those that fell between a read and its clear, and touches no other total |
| `Mdio.FrameLayout` | Linux/taxi-mac/taxi_mac.c:225-269 | both drivers put the same frame on the wire, laid out as in section 22.2.4.5 of IEEE 802.3 |
| `Mdio.DecodePacked` | Vivado/src/hdl/taxi_rgmii_mac_core.sv:275 | the register file replaces the turnaround bits and keeps every other field |
| `Mdio.EdgeSettles` | Vivado/src/hdl/taxi_rgmii_mac_core.sv:271-282 | an edge never loses or repeats a command: what the PHY registers will settle to changes only by a command accepted at that edge |
| `Mdio.ElapseSettles` | Vivado/src/hdl/taxi_rgmii_mac_core.sv:236-282 | no amount of waiting changes what the registers will settle to |
| `Mdio.ElapseReading` | Vivado/src/hdl/taxi_rgmii_mac_core.sv:236-282 | data of an issued read is what the settled registers hold, whenever it arrives, and no earlier command can supply it |
| `Mdio.IssueSettles` | Vivado/src/hdl/taxi_rgmii_mac_core.sv:271-282 | a command written to a quiet system is accepted and is the only one outstanding |
| `Mdio.StatusBits` | Vivado/src/hdl/taxi_rgmii_mac_core.sv:319 | the three status bits as software sees them |
| `MdioDrivers.QuietIffServed` | Linux/taxi-mac/taxi_mac.c:216-269 | a command written to a quiet bus is done exactly when the master has been able to take it, drive it through and finish it |
| `MdioDrivers.ReadAnsweredIffServed` | Linux/taxi-mac/taxi_mac.c:243-248 | the wait for a read's data succeeds exactly if one of its looks comes after that |
| `MdioDrivers.QuietAnswers` | Linux/taxi-mac/taxi_mac.c:220-222 | on a quiet bus the first look of the first wait succeeds |
| `MdioDrivers.Bus.PollStatus` | Linux/taxi-mac/taxi_mac.c:216-223 | succeeds exactly if the condition holds at one of its looks, told on the states that waiting reaches, and leaves the registers alone |
| `MdioDrivers.Bus.LinuxRead` | Linux/taxi-mac/taxi_mac.c:225-250 | it is issued exactly if a look of its first wait finds the bus idle, and succeeds exactly if, besides, a look of its second wait comes after the master has served it; it then returns the register's current content; no read changes a register |
| `MdioDrivers.Bus.LinuxWrite` | Linux/taxi-mac/taxi_mac.c:252-269 | issued and successful exactly then, likewise; one that was issued is applied exactly once, also when its second wait times out; one that was not changes nothing |
| `MdioDrivers.Bus.BareMetalCmd` | Vitis/common/src/taxi_mac.c:106-134 | issued and successful exactly then, with 20000 looks a wait; a command reported done was executed and the bus is quiet |
| `MdioDrivers.Bus.BareMetalWrite` | Vitis/common/src/taxi_mac.c:136-144 | likewise for the bare-metal write |
| `MdioDrivers.Bus.BareMetalRead` | Vitis/common/src/taxi_mac.c:146-162 | likewise for the read: it fails exactly if none of the looks of one of its waits comes late enough, and otherwise returns the register's content |
| `MdioDrivers.Bus.Session` | Linux/taxi-mac/taxi_mac.c:216-269 | any sequence of calls of the Linux driver, the bare-metal driver or both in any mix, timed-out ones included, behaves as reads and writes of a plain register array; from a quiet bus, if the master serves each command in time, every call succeeds |
| `MdioDrivers.Bus.Wait` | Linux/taxi-mac/taxi_mac.c:216-223 | waiting changes no register the PHY will settle to |
| `MdioDrivers.Bus.Issue` | Linux/taxi-mac/taxi_mac.c:232-260 | writing MDIO_CMD to an idle mailbox is always accepted |
| `MacifTx.WireCarriesPayloads` | Vitis/common/src/taxi_macif.c:641-709 | descriptors in ring order reassemble into exactly one SOF..EOF frame per queued chain, carrying its payload with empty pbufs skipped |
| `MacifTx.EveryRunSendsWholeFrames` | Vitis/common/src/taxi_macif.c:641-709 | in every run of sends and reclaims, full ring and refused hand-overs included |
| `MacifTx.EveryRunPinsItsChains` | Vitis/common/src/taxi_macif.c:434-709 | each hardware-owned descriptor belongs to a chain on which the driver holds exactly one reference, none is given back twice, and tx_queued less tx_frames is the number of chains in the ring |
| `MacifTx.ReclaimOneKeeps` | Vitis/common/src/taxi_macif.c:444-452 | reclaiming a descriptor gives back the chain's reference exactly when it was the chain's last |
| `MacifTx.ReclaimKeeps` | Vitis/common/src/taxi_macif.c:434-455 | so does reclaiming any completed prefix of the ring |
| `MacifTx.FrameShape` | Vitis/common/src/taxi_macif.c:675-695 | first descriptor SOF, last EOF and holding the chain, none in between |
| `MacifTx.OutputKeeps` | Vitis/common/src/taxi_macif.c:641-709 | every outcome of low_level_output keeps the invariant |
| `MacifTx.OutputAnswers` | Vitis/common/src/taxi_macif.c:641-709 | how every call ends: done at once without data; a lack of memory, counted, when the ring is too full even with what has completed, and one not counted when the ring library hands out nothing; an interface error when the hardware refuses; and Ok otherwise; with what is sent, queued and held in each case |
| `MacifTx.OutputFillsRing` | Vitis/common/src/taxi_macif.c:641-709 | completed descriptors leave the ring only where room is short, and what is sent joins it |
| `MacifTxDriver.TxSide.ProcessSentBds` | Vitis/common/src/taxi_macif.c:434-455 | the reclaim loop is the reclaim of the specification |
| `MacifTxDriver.TxSide.BuildBds` | Vitis/common/src/taxi_macif.c:671-695 | the descriptors filled in place are the chain's frame |
| `MacifTxDriver.TxSide.FillBds` | Vitis/common/src/taxi_macif.c:675-686 | one descriptor per non-empty pbuf, in chain order |
| `MacifTxDriver.TxSide.CountBds` | Vitis/common/src/taxi_macif.c:651-655 | counts exactly the non-empty pbufs |
| `MacifTxDriver.TxSide.LowLevelOutput` | Vitis/common/src/taxi_macif.c:641-709 | the whole routine, with its return code, is the output step |
| `MacifRx.EveryRunIsAFifo` | Vitis/common/src/taxi_macif.c:539-742 | with the interrupt striking anywhere in the main loop the index queue is a FIFO of capacity 127, full exactly when the indices say so |
| `MacifRx.EveryRunTallies` | Vitis/common/src/taxi_macif.c:516-747 | reclaimed descriptors equal errors plus drops plus counted frames plus those queued plus the one in hand |
| `MacifRx.EveryRunConservesPbufs` | Vitis/common/src/taxi_macif.c:387-754 | every pool pbuf is in exactly one place, and the lists name each pbuf once |
| `MacifRxFrames.EveryRunOffersItsFrames` | Vitis/common/src/taxi_macif.c:516-750 | told from the events alone: the stack is offered exactly the frames that arrived whole, without error and with 1 to 1536 bytes while there was room, port by port in order of completion, each in its own pbuf and with its length |
| `MacifRxFrames.EveryAnswerIsHonoured` | Vitis/common/src/taxi_macif.c:746-750 | in any run a frame the stack takes becomes the stack's; one it refuses is freed and counted; nothing else moves |
| `MacifRxFrames.EveryRunKnowsTheStack` | Vitis/common/src/taxi_macif.c:746-750 | the pbufs with the stack are exactly those it allocated or took and has not freed |
| `MacifRxFrames.EveryRunCounts` | Vitis/common/src/taxi_macif.c:516-752 | rx_bd_err, rx_q_drop, rx_frames and rx_input_err are the bad completions, the good frames without room, the frames taken up and the refusals |
| `MacifRxFrames.BookKept` | Vitis/common/src/taxi_macif.c:387-754 | every run keeps that account, whatever order the steps of the ports, the main loop and the stack come in |
| `MacifRx.InterruptHandsOff` | Vitis/common/src/taxi_macif.c:516-550 | an interrupt queues the good frames in order of completion, as many as fit, and counts every other one as an error or a drop |
| `MacifRx.ErrorTouchesOnePort` | Vitis/common/src/taxi_macif.c:509-514 | an error interrupt takes nothing back and leaves the queue, the other ports, the stack and the main loop as they were |
| `MacifRx.RefillCompletesIff` | Vitis/common/src/taxi_macif.c:387-430 | an interrupt leaves every descriptor armed exactly when the pool has a pbuf for each free one and neither a chained pbuf nor the ring library gets in the way |
| `MacifRx.EveryRunRefills` | Vitis/common/src/taxi_macif.c:75-78 | while the stack and the main loop together hold at most 2048 - 4*(64+127) pbufs the pool suffices: every descriptor is armed exactly when nothing else gets in the way |
| `MacifRx.OneInHandIsOneTooMany` | Vitis/common/src/taxi_macif.c:736-747 | counting only the stack's pbufs is off by one: a reachable state with 1284 at the stack and one in the main loop's hand leaves a descriptor without a buffer |
| `MacifRx.RefillCounts` | Vitis/common/src/taxi_macif.c:387-430 | a refill arms every free descriptor, or as many as there are free pbufs, or as many as come before the first failure |
| `MacifRx.ReclaimAllKeeps` | Vitis/common/src/taxi_macif.c:516-552 | the interrupt's loop keeps the invariant |
| `MacifRx.RefillKeeps` | Vitis/common/src/taxi_macif.c:387-430 | so does the refill |
| `MacifRx.AdvanceKeeps` | Vitis/common/src/taxi_macif.c:736-739 | so does moving the tail past the slot just read, which still holds the pbuf read |
| `MacifRx.DeliverKeeps` | Vitis/common/src/taxi_macif.c:746-750 | so does handing the pbuf to the stack, accepted or refused; which is which is MacifRxFrames.EveryAnswerIsHonoured |
| `MacifRx.StepKeeps` | Vitis/common/src/taxi_macif.c:387-754 | so does every step |
| `MacifRxDriver.Macif.SetupRxBds` | Vitis/common/src/taxi_macif.c:387-430 | the refill loop is the refill of the specification, an empty pool, a chained pbuf and both failures of the ring library included |
| `MacifRxDriver.Macif.SetupRxBd` | Vitis/common/src/taxi_macif.c:393-429 | one turn of it: a pbuf is armed, or whatever was allocated is given back and the loop ends |
| `MacifRxDriver.Macif.TakeBack` | Vitis/common/src/taxi_macif.c:517-549 | one turn of the interrupt's loop on the queue array is the reclaim step |
| `MacifRxDriver.Macif.RxIsr` | Vitis/common/src/taxi_macif.c:496-559 | the whole handler, by cause: an error is counted and only what is missing is armed; completions are one step of the machine; anything else changes nothing |
| `MacifRxDriver.Macif.Input` | Vitis/common/src/taxi_macif.c:730-754 | however often it is struck, it offers the stack exactly the frames it reports, in order, each with the answer the stack gives; rx_input_err grows by the number refused; and it returns only with the queue empty |
| `MacifRxDriver.Macif.InputOne` | Vitis/common/src/taxi_macif.c:736-752 | one turn offers the front of the queue to the stack, whose it is if taken, and frees and counts it otherwise |
| `MacifRxDriver.Macif.Struck` | Vitis/common/src/taxi_macif.c:496-559 | an interrupt disturbs neither the main loop's place nor its index |
| `Prune.PrunePaths` | build.py:1482-1505 | the recursion over sorted directory listings returns, in order and without repeats, exactly the names of the topmost entries that are neither kept nor lead to a kept path; a root that is a link, or no directory, yields none, and one reached through links is pruned |
| `Prune.DoomedIsExact` | build.py:1482-1505 | whatever the tree, an entry below a real directory survives exactly when it is covered by a kept path or a directory leading to one |
| `Pruned.PruneIsExact` | build.py:1482-1505 | below the root the survivors are exactly the existing kept paths below it, everything under them and the directories leading to one, whatever the links |
| `Pruned.PruneStaysInside` | build.py:1482-1505 | nothing outside the root is removed |
| `Pruned.ReturnedAreRemoved` | build.py:1504-1617 | each returned path names an entry that goes |
| `Pruned.ReturnedPathsAreMaximal` | build.py:1486-1505 | returned paths are pairwise non-nested, and none could be replaced by its parent |
| `Pruned.KeptStillExistsIff` | build.py:1490-1504 | with any links, a kept path that exists still exists afterwards exactly when no entry the kernel visits on the way to it, links included, is removed |
| `Pruned.KeptPathSurvivesIff` | build.py:1490-1504 | that is, exactly when each such entry below the root is covered by an existing kept path or is a directory that leads to one |
| `Pruned.PlainKeptStillExists` | build.py:1490-1504 | so one below the root that runs through no link always does |
| `Pruned.KeptPathIsHonouredIff` | build.py:1482-1505 | with any links, a kept path keeps all it holds below the root, unless it is the root or above it: then exactly when everything below the root is spared by other kept paths |
| `Pruned.KeepingTheRootKeepsNothing` | build.py:1498-1503 | the smallest case in which it does not |
| `Pruned.LinkOnTheWayIsRemoved` | build.py:1500-1504 | a link below the root survives exactly when it is itself covered by a kept path |
| `Pruned.KeptBehindALinkIsLost` | build.py:1490-1504 | the smallest tree in which a kept path that runs through a link no longer exists afterwards |
| `Pruned.PruneAgainFindsNothingIff` | build.py:1482-1505 | pruning again finds nothing more exactly when every entry a kept path spared is spared by one that still exists, or the root can no longer be reached |
| `Pruned.PruneKeepsWhatIsThere` | build.py:1482-1505 | without links an entry survives exactly when it is under, is, or leads to a kept path that is there |
| `FileSystem.WalkSurvives` | build.py:1492 | a path leads after a removal where it led before exactly when nothing on the way, links included, is removed, and otherwise nowhere |
| `FileSystem.TestsSurvive` | build.py:1607-1617 | so exists, is_file and is_dir answer as before on such a path and as for a missing one on any other |
| `FileSystem.PlainResolve` | build.py:1492 | a path without links leads to itself exactly when it is present, and a removal that leaves it there leaves the way to it intact |
| `FileSystem.WithoutIsATree` | build.py:1607-1617 | what is left after removal is still a tree |
| `KeepBoot.KeepBootKeepsNothingToDo` | build.py:1508-1642 | for every tree, links included: if every stage of "all" had nothing to do, every stage still has nothing to do exactly when no entry on the way to a path that a stage depends on goes, no Yocto input changes, and the boot file of a workspace that goes is not older than the XSA |
| `KeepBoot.StandaloneAfter` | build.py:616-643 | the stage that decides it: after the clean the boot file is compared with the XSA instead of the ELF |
| `KeepBoot.CfgmemAfter` | build.py:658-675 | the configuration-memory stage skips afterwards exactly when its image and its source stay |
| `KeepBoot.PetalinuxAfter` | build.py:743-755 | the PetaLinux stage skips afterwards exactly when one of its boot images stays |
| `KeepBoot.YoctoAfter` | build.py:969-999 | in any tree the Yocto stage skips afterwards exactly when its images stay and, if their stamp stays, the walks find the same inputs (KeepBootInputs.YoctoSkipsAfterIff says which files must not go for that) |
| `KeepBoot.InputsAreSame` | build.py:868-901 | the Yocto inputs and their hashes are unchanged where nothing that os.walk looks at below the input directories goes |
| `KeepBoot.PackageAfter` | build.py:1119-1288 | packaging leaves the zips alone afterwards exactly when the zips stay: sources that went do not make a zip stale |
| `KeepBootInputs.KeepBootIsANoOpIff` | build.py:1508-1642 | where no link lies on a path that a stage, the clean or the walk of an input directory looks at, whatever links the build trees hold otherwise, "all" is a no-op exactly when the boot file of a workspace that goes is not older than the XSA and no Yocto input file lies in an area that is cleared |
| `KeepBootInputs.YoctoSkipsAfterIff` | build.py:964-999 | there the Yocto stage skips afterwards exactly when, if there is a stamp, no input file lies in an area that is cleared |
| `KeepBootInputs.SameInputsIff` | build.py:868-901 | the inputs and their hashes are the same exactly when no input file is taken |
| `KeepBootInputs.GoneIffTaken` | build.py:1532-1571 | which files the clean takes, area by area: what no kept path covers below Vivado/<t>, generated IP, the workspace, PetaLinux build and components, and Yocto/<t> but for its images |
| `KeepBootNames.GoneIffDispensable` | build.py:1508-1573 | by the names of the files, where no link lies on a path that matters: a file is gone exactly when the XSA is there and it lies in the Vivado project and is not (under) the XSA, the device image, a .ltx or .mmi in impl_1, or the .mcs or .prm; or it is generated IP; or the boot file is there and it lies in the workspace; or a PetaLinux image is there and it lies in its build or components; or the four Yocto images are there and it lies in the Yocto work tree but not in its images |
| `KeepBootNames.CompanionsStay` | build.py:1534-1542 | every .ltx and .mmi file directly in impl_1 stays |
| `KeepBootNames.ImagesStayByName` | build.py:1539-1542 | so do the XSA, the device image and the .mcs and .prm beside the project |
| `KeepBootNames.OthersStay` | build.py:1508-1573 | and everything outside the areas that are cleared |
| `KeepBootNames.ElsewhereByName` | build.py:1508-1573 | that is, the PetaLinux images and project-spec, the Yocto images, the Vitis boot files, the zips and the logs |
| `KeepBootNames.BuildGoes` | build.py:1555-1559 | everything in PetaLinux/<t>/build and components goes once an image is built |
| `StageNames.DoneMeansBuilt` | build.py:499-1288 | by the names of the files: when "all" has nothing to do, the XSA, the boot file, the flash image, the PetaLinux and the Yocto images and the zips that the target is to have are there |
| `StageNames.StandaloneByName` | build.py:616-643 | when the standalone stage skips, in files and their times |
| `StageNames.CfgmemByName` | build.py:646-675 | when the flash image of a target without a MicroBlaze application counts as current |
| `StageNames.CfgmemOfBootFile` | build.py:646-675 | and that of one with it |
| `StageNames.YoctoByName` | build.py:810-999 | when the Yocto stage skips: the four images are there, and no stamp or one that lists the inputs as they are |
| `StageNames.ZipsByName` | build.py:1085-1182 | which files each zip must not be older than |
| `StageNames.InputsByName` | build.py:797-901 | the inputs are exactly the files below the bsp directory of the target or its board, the port configuration and the listed layers, without byte code, caches and version control, and the XSA, each with the hash of its content |
| `InputWalk.WalkFinds` | build.py:881-899 | in whatever order directories are listed, the walk of directories without links finds exactly the files below them whose names and directories are not set aside |
| `InputWalk.FoundAfter` | build.py:881-899 | a removal takes away just the input files it removes |
| `KeepBootPlain.NoOpIffInputsKept` | build.py:1508-1642 | with links in the input directories as well: the boot file, and that the walks find what they found |
| `KeepBootPlain.PlainInputsAreKept` | build.py:868-901 | the inputs stay the same where their directories hold no links and the extra layers lie apart from what the clean could reach |
| `KeepBootPlain.PlanInPlace` | build.py:1508-1573 | there, what is removed lies in the target's own areas under its own name |
| `KeepBootPlain.VivKeptStays` | build.py:1539-1542 | in terms of the keep set, which KeepBootNames gives by name: the XSA, the device image, the flash images and their companions survive |
| `KeepBootPlain.ImagesStay` | build.py:1564-1567 | everything under the Yocto images directory survives |
| `KeepBootCases.LinkedXsaIsLost` | build.py:1532-1543 | in every tree in which the XSA is a link to a file beside it that is not itself kept, the XSA is lost and "all" has to build it again |
| `KeepBootCases.LinkedXsaExists` | build.py:1532-1543 | for every target that only makes a bitstream there is such a tree in which "all" had nothing to do |
| `KeepBootCases.OldBootFileIsRebuilt` | build.py:616-643 | in every link-free bare-metal build whose boot file is older than the XSA "all" has nothing to do before the clean and something to do after it |
| `KeepBootCases.OldBootFileExists` | build.py:616-643 | there is such a build |
| `KeepBootCases.TakenInputIsMissed` | build.py:984-999 | in every stamped Yocto target with an input file in a cleared area "all" has something to do after the clean |
| `KeepBootCases.LayerInsideIsLost` | build.py:984-1006 | for every Yocto target there is a link-free tree, with an extra layer inside its work tree, in which "all" had nothing to do before |
| `KeepBootDriver.KeepBootPlan` | build.py:1508-1571 | returns exactly the planned paths, and a note for exactly the areas whose deliverable is missing; KeepBootNames says which files these are |
| `KeepBootDriver.UnfinishedByName` | build.py:1543-1571 | which deliverable each note is about |
| `KeepBootDriver.PlanIsFlat` | build.py:1508-1571 | where no link lies on a path that matters, no planned path lies inside another |
| `KeepBootDriver.Disk.RemovePaths` | build.py:1607-1617 | gets through exactly when each path is still there when its turn comes, removes exactly the entries the paths named with all they hold, and otherwise stops at the first path that is not there |
| `KeepBootDriver.Clean` | build.py:1508-1617 | for every tree: when it gets through, exactly the planned entries are gone; when it does not, only some of them; and wherever no link lies on a path that matters it gets through, and the files gone are exactly those dispensable by name |
| `Yocto.StampRoundTrip` | build.py:908-934 | reading a written stamp gives the recorded inputs back exactly when no path has a line break |
| `Yocto.ReadStamp` | build.py:915-922 | the reading loop is the parse |
| `Yocto.WriteStamp` | build.py:928-932 | the writing loop is the rendering |
| `Yocto.BreaksSplit` | build.py:915 | a line ends at exactly the ten characters at which str.splitlines ends one |
| `Order.LessIff` | build.py:901 | names sort by the first character in which they differ, a beginning before what continues it |
| `Yocto.InputChanges` | build.py:937-954 | for each input but the XSA: listed as removed, added or changed exactly when it is, and in no other way; the XSA only as changed, and only when both sides have it; and all in the order of the inputs |
| `Yocto.UpToDateIff` | build.py:937-954 | no change is listed exactly when the maps agree, but for an XSA only one side has |
| `YoctoRuns.ReportsAreTrueIff` | build.py:984-999 | whatever is edited next, no images are wrongly reported up to date, exactly when the stamp says what they were built from |
| `YoctoRuns.TrustStep` | build.py:964-1065 | what each event does to that, exactly: packaging, a write of the stamp that fails, and a write after a build that read something else can end it |
| `YoctoRuns.WatchKeeps` | build.py:1007-1065 | for each input, the events tell whether the build that runs reads it as it was at the start, whether the latest images did, and whether their stamp is right about it |
| `YoctoRuns.SettledIsTrusted` | build.py:1007-1065 | the stamp is right at the end of every run in which the last packaging was of a build that began in a current build directory and saw no input edited, and a successful stamp or a removal of images followed |
| `YoctoRuns.ReportsAreTrue` | build.py:984-1065 | over every such run of edits, builds, failures and cleans, images are reported up to date exactly when they were built from the inputs as they are now |
| `YoctoRuns.ReportsAreTrueFor` | build.py:984-1065 | and whatever else was edited, images reported up to date hold each input as it is now that was not edited during the last build |
| `YoctoRuns.EditsAreNoticed` | build.py:1008-1064 | once a build has stamped its snapshot, an input that differs from the snapshot, edited while bitbake ran or later, is never reported up to date |
| `YoctoRuns.AdoptionIsRemembered` | build.py:984-999 | once a missing stamp has been adopted, images there are reported up to date exactly while the inputs are those found then |
| `YoctoRuns.EditDuringBuildHidesARevert` | build.py:1010-1064 | an input edited while bitbake runs and put back afterwards is reported up to date although the images hold the edit |
| `YoctoRuns.LostStampHidesAnEdit` | build.py:990-993 | if the first stamp could not be written, the images are adopted and an edit is missed |
| `YoctoRuns.KilledBuildHidesARevert` | build.py:1059-1064 | if a rebuild is killed between packaging and stamping, a reverted edit is reported up to date |
| `YoctoRuns.YoctoTree.Check` | build.py:984-999 | reports fresh exactly when there are images and no stamp or one that tells the inputs as they are, but for an XSA only one side has; and exactly which stamp it leaves |
| `YoctoRuns.YoctoTree.StageYocto` | build.py:964-1065 | skips exactly when fresh, and fails exactly when it does not and the build does; a build stamps the inputs as they were before it, and its images hold each of them that was not edited while it ran, if its build directory was current; a failed one leaves images and stamp as they were |
| `YoctoHandOver.EveryTimelyBuildIsCurrent` | build.py:1030-1054 | over every run in which changed files get later times, the two optional files stay and no layer is dropped, every build that gets past its configure step has a current build directory, failed builds in between included |
| `YoctoHandOver.CurrentAfterwardsIff` | build.py:1030-1054 | when it has, exactly, in terms of the copy of the XSA, the marker and what was configured before |
| `YoctoHandOver.UnseenChange` | build.py:1030-1054 | a change that leaves no time later than the marker is not taken over |
| `YoctoHandOver.RemovedConfIsNotNoticed` | build.py:1048-1050 | removing local.conf.append is such a change |
| `YoctoHandOver.OlderXsaIsNotNoticed` | build.py:1031-1034 | so is putting an XSA of other content in place with an older time |
| `YoctoHandOver.RemovedLayerStays` | Yocto/scripts/configure-build.sh:124-145 | a layer taken off the list stays in the build although the script runs again |
| `Ocm.CheckProgramMemory` | EmbeddedSw/lib/sw_apps/zynqmp_fsbl/data/zynqmp_fsbl.tcl:84-143 | the loops, with their early returns, accept exactly what the specification accepts, and only where every address needed lies in a memory that may be used |
| `Ocm.MergeRanges` | EmbeddedSw/lib/sw_apps/zynqmp_fsbl/data/zynqmp_fsbl.tcl:116-140 | the merge loop on sorted ranges |
| `Ocm.CollectRanges` | EmbeddedSw/lib/sw_apps/zynqmp_fsbl/data/zynqmp_fsbl.tcl:91-109 | the filter loop: eligible ranges, or one that is enough alone |
| `Ocm.AcceptanceIsSound` | EmbeddedSw/lib/sw_apps/zynqmp_fsbl/data/zynqmp_fsbl.tcl:90-142 | acceptance implies that eligible ranges cover all of [0xfffc0000, +0x2A000), whatever the ranges |
| `Ocm.AcceptsIff` | EmbeddedSw/lib/sw_apps/zynqmp_fsbl/data/zynqmp_fsbl.tcl:90-142 | whatever the ranges, acceptance is equivalent to: one range is enough alone, or in order of their bases some follow each other without gap or overlap from the start address to the required end and the one before them does not end at the start |
| `Ocm.MergeFindsChains` | EmbeddedSw/lib/sw_apps/zynqmp_fsbl/data/zynqmp_fsbl.tcl:116-140 | the merge loop finds just those chains, from any point on |
| `Ocm.AcceptanceIsExact` | EmbeddedSw/lib/sw_apps/zynqmp_fsbl/data/zynqmp_fsbl.tcl:90-142 | so for ranges that do not overlap it is equivalent to coverage together with: one range is enough alone, or none holds the address just below the start |
| `Ocm.PassingMeansMemory` | EmbeddedSw/lib/sw_apps/zynqmp_fsbl/data/zynqmp_fsbl.tcl:84-142 | in terms of the memories: where the check passes, each of the 0x2A000 addresses from 0xfffc0000 on lies between the base and high address of a read-write OCM memory that the security setting allows |
| `Ocm.PassingIsExact` | EmbeddedSw/lib/sw_apps/zynqmp_fsbl/data/zynqmp_fsbl.tcl:84-142 | for memories that do not overlap it passes exactly when those addresses are all there and one memory alone starts at the first and holds them all, or none holds the address just below |
| `Ocm.CoverageIsAccepted` | EmbeddedSw/lib/sw_apps/zynqmp_fsbl/data/zynqmp_fsbl.tcl:90-142 | so with no range starting below the start, coverage is enough |
| `Ocm.OverlapIsRefused` | EmbeddedSw/lib/sw_apps/zynqmp_fsbl/data/zynqmp_fsbl.tcl:120-140 | overlapping ranges that cover the memory can be refused |
| `Ocm.NeighbourBelowIsRefused` | EmbeddedSw/lib/sw_apps/zynqmp_fsbl/data/zynqmp_fsbl.tcl:120-140 | so can adjacent ones of which one ends at the start |
| `Ocm.SortSorts` | EmbeddedSw/lib/sw_apps/zynqmp_fsbl/data/zynqmp_fsbl.tcl:115 | the sort orders by base and keeps every range |
| `Fru.ReadMinMaxVadj` | EmbeddedSw/lib/sw_apps/zynqmp_fsbl/src/xfsbl_board.c:144-188 | the do-while walk on the image is the specification, with an access outside the image made explicit |
| `Fru.WalkFindsTheRecord` | EmbeddedSw/lib/sw_apps/zynqmp_fsbl/src/xfsbl_board.c:144-188 | on a well-formed chain the walk stays in the image and yields the first DC-load record of output 0, as parsing into records would (section 16 of the IPMI FRU Information Storage Definition v1.0) |
| `Fru.WalkIsParse` | EmbeddedSw/lib/sw_apps/zynqmp_fsbl/src/xfsbl_board.c:145-183 | the same from any offset |
| `Fru.OverrunIff` | EmbeddedSw/lib/sw_apps/zynqmp_fsbl/src/xfsbl_board.c:146-187 | the walk leaves the image exactly when the last record it visits is not in it, or is the one looked for and its voltages are not |
| `Fru.VisitsAdvance` | EmbeddedSw/lib/sw_apps/zynqmp_fsbl/src/xfsbl_board.c:166-168 | each record visited lies at least a header further on, so the walk ends |
| `Fru.PickIsFirst` | EmbeddedSw/lib/sw_apps/zynqmp_fsbl/src/xfsbl_board.c:151-165 | the record chosen is the first of its kind |
| `Fru.RecordSetsLimits` | EmbeddedSw/lib/sw_apps/zynqmp_fsbl/src/xfsbl_board.c:144-188 | by position: for records that start where byte 5 of the image says and follow one another, the limits are bytes 8 and 9 and bytes 10 and 11, low byte first and in steps of 10 mV, of the first DC-load record of output 0 |
| `Fru.NoRecordSetsNone` | EmbeddedSw/lib/sw_apps/zynqmp_fsbl/src/xfsbl_board.c:144-188 | and VADJ stays off where there is none |
| `Fru.NoAreaTurnsVadjOff` | EmbeddedSw/lib/sw_apps/zynqmp_fsbl/src/xfsbl_board.c:144-188 | so it does where the header is of another format or names no multirecord area |
| `Fru.ChainIsParsed` | EmbeddedSw/lib/sw_apps/zynqmp_fsbl/src/xfsbl_board.c:145-168 | such records are parsed as what their bytes say |
| `Fru.ParsedIsChained` | EmbeddedSw/lib/sw_apps/zynqmp_fsbl/src/xfsbl_board.c:145-168 | and only such records are |
| `Fru.RailByVoltage` | EmbeddedSw/lib/sw_apps/zynqmp_fsbl/src/xfsbl_board.c:203-222 | 1.8 V wherever the limits allow it, 1.5 V where the upper one is below that, 1.2 V where it is below 1.5 V, and otherwise off |
| `Fru.SettingIsBestIff` | EmbeddedSw/lib/sw_apps/zynqmp_fsbl/src/xfsbl_board.c:203-222 | the rail is the highest of 1.8, 1.5 and 1.2 V within the limits exactly when truncation to 16 bits did no harm |
| `Fru.RailIsHighestIff` | EmbeddedSw/lib/sw_apps/zynqmp_fsbl/src/xfsbl_board.c:144-222 | end to end for every well-formed image: the rail set is the highest within the limits of its record exactly when truncation did no harm |
| `Fru.HighLimitTurnsVadjOff` | EmbeddedSw/lib/sw_apps/zynqmp_fsbl/src/xfsbl_board.c:186-222 | an image that allows 1.8 V, with a maximum of 65540 mV, for which VADJ is turned off |

## Left out

- LinuxTx.EveryRunIsAFifo: assumes that the DMA engine completes descriptors in the order they were submitted.
- LinuxTx.BusyIsUnreachable: assumes that the stack transmits one frame at a time, only to a queue that is not stopped, and none between `netif_tx_disable` and the restart.
- LinuxRx.EveryRunOwnsItsBuffers: assumes that `dmaengine_terminate_sync` waits for callbacks in progress and that `napi_disable` waits for a poll in progress; rejected schedules of a running NAPI are one flag, as in the kernel's missed bit.
- LinuxRx.EveryRunIssues: `dma_async_issue_pending` at the end of a poll is part of the step that leaves its loop, and on transmit part of the submit section.
- LinuxPort.Port.Stop: what the DMA engine does with a released channel is not modelled; the call is taken to end there.
- LinuxRx.EveryCompletionIsCounted: the 64-bit statistics of the Linux driver are unbounded numbers.
- AxiLite.WritesAreFaithful: the log starts afresh at a reset, as the protocol does, and the master holds valid and payload until accepted; it need not across a reset.
- MdioDrivers.Bus.Session: the master is busy from accepting a command until it finishes it and takes no other meanwhile; its serial shifting, the clock divider and a PHY that changes its own registers are not modelled.
- MdioDrivers.Bus.PollStatus: a look is one read of the status register and a wait a number of looks, a parameter for the Linux driver, whose wait is a time; the waits inside `usleep` are part of the schedule.
- HwStats.TotalsAreLowerBounds: holds while fewer than 2^64 events have occurred, the width of the totals; polls are serialised.
- MacifTx.EveryRunSendsWholeFrames: reclaimed descriptors are a completed prefix in ring order.
- MacifRx.EveryRunRefills: nothing is claimed about reception after the pool runs out, since only the interrupt refills the ring.
- MacifRx.EveryRunIsAFifo: the comparison of the two indices and the read of the slot are one step; an interrupt between them could only add to the queue.
- MacifRxDriver.Macif.RxIsr: runs as one step of the machine, as interrupts of the ports do not nest; the reset of the DMA engine after an error is taken to leave its descriptors where they are.
- KeepBootNames.GoneIffDispensable: for trees without links on the paths that the stages and the clean look at; `KeepBoot.KeepBootKeepsNothingToDo` and `Pruned.PruneIsExact` hold for any.
- KeepBoot.KeepBootKeepsNothingToDo: stated for hosts other than Windows; a stage whose skip writes a missing stamp counts as having nothing to do.
- KeepBoot.InputsAreSame: which layers a `bblayers-extra.txt` names is a function of its content, as paths below the repository root; its lines are not parsed.
- YoctoRuns.ReportsAreTrue: packaging puts all images in place at once, a failed one puts none, two contents with the same hash are the same, and bitbake rebuilds whatever depends on a file that changed. Whether a build begins in a current build directory is part of the event; `YoctoHandOver` says when.
- YoctoHandOver.EveryTimelyBuildIsCurrent: the board support directory of a target, its port configuration and its names stay the same; what a failed configure script leaves behind is arbitrary, but it adds no layer that is not listed.
- KeepBootInputs.KeepBootIsANoOpIff: for targets not named like a directory they share with others (`ip`, `scripts`, `bsp`); for input directories with links `KeepBootPlain.NoOpIffInputsKept` compares what the walks find.
- FileSystem.WalkSurvives: a link holds the path it points at, with `..` worked out, counted from the repository root; what lies outside the repository counts as held by one more directory there; permissions are not modelled, and a removal takes everything below an entry at once.
- Yocto.StampRoundTrip: digests are non-empty lower-case hexadecimal, and the header is any comment line.
- Fru.RecordSetsLimits: for records that all lie in the image; `Fru.OverrunIff` says when the walk leaves it.
- Fru.WalkFindsTheRecord: a DC-load record of a well-formed chain is at least long enough for its output number and three voltages.
- Memory barriers, cache maintenance and what a DMA engine does during its reset depend on hardware and library state outside the repository.
- PHY setup, link polling and the DHCP switch of the bare-metal application are straight-line register sequences or a small state machine.
- The build lock checks and then writes without atomicity, so it excludes nothing in general.
- Tool discovery, subprocesses, argument parsing, printing, zip contents, BIF text and shell scripts are input and output.
- `config/update.py` and the overlay copy of the Vitis build would only add easy members.
- Test benches, block designs, constraints, device trees, recipes and documentation.
