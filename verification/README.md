# Proofs about the PCIe driver, the host channels and the vFPGA scaler

This project models four parts of the repository in Dafny 4.11 and proves what
they are for.

**Bulk DMA** (`DmaSpec`, `DmaEngine`, `DmaInvariant`, `DmaTransfer`, `DmaMemory`,
`DmaBatches`, `DmaCut`, `DmaProtocol`, `DmaPins`, `Packing`). A transfer request
becomes a series of descriptor batches, one for every call of
`aclpci_dma_update`. `DmaSpec` is one call as a function on the state struct;
`DmaEngine.Engine` is the driver's code as an object that writes the descriptor
tables slot by slot, and every method is proved to compute that function.
`DmaInvariant` is what holds between calls, whatever the alignment of the user
buffer: three pinned regions, a partial first and last page, the dropped last
page, the 32-bit `first_size`. `DmaMemory` turns the descriptors into their
effect on memory, and `DmaProtocol` puts driver, controller, interrupt line and
work queue together, including the work item the host channels share with bulk
DMA.

**Host channels** (`Modular`, `HostChannel`, `HostChannelProtocol`,
`HostChannelData`, `HostChannelWakeup`). Circular buffers shared by a user
thread, the driver's relay and the FPGA. The pointers in memory are unbounded
counters modulo the buffer size; the object keeps the counters as ghost fields,
and the state machine interleaves everybody's steps; the thread-sync command is
three of them, as its statements at linux64/driver/aclpci_dma.c:1133-1137 are not
guarded against the relay. The FPGA may read or store a byte at any time,
publishes whole words on push, never reads past the end pointer it was told, and
never fills the pull ring.

**Requests and regions** (`Registry`, `Services`, `Pools`, `Allocator`,
`InitGuarantee`, `Scaler`, `ScalerLaws`, `ScalerObject`, `RequestProtocol`,
`RequestPrograms`, `QueueManagers`). Applications obtain a partially
reconfigurable region (PRR), have it programmed, run and release it; the scaler
decides how many regions a service should own and moves them. Loads are real
numbers, or no number at all after a division of 0 by 0.

**Window and blocks** (`BarWindow`, `BarDevice`, `CopyBlock`, `BlockDevice`).
Unaligned transfers through the 64 KiB window, their combination with the DMA
engine, and the copy inside device memory.

Memory is a total function from addresses to bytes; user addresses go through a
page table that is fixed while pages are pinned. A transfer from the device is a
memcpy only if no two bytes of the user range share a physical byte, which
distinct page frames ensure (`DmaMemory.DistinctFramesNoAlias`).

## Where the code differs from what it says

- `first_size` is an `unsigned int` (linux64/driver/aclpci_dma.c:792, 892), so on
  the last page of a region the bytes left are cut to 32 bits. `CutExact` says
  exactly when a whole page is then sent as a partial one, and `CutReached` gives
  a request that comes there. All transfers stay correct.
- The thread-sync command queues the relay and then writes the sync word
  (linux64/driver/aclpci_dma.c:1135-1137). If the relay counts down in between, the
  word says that it is queued when it is not, and no acknowledgement is relayed
  any more: from every start of a session with a push channel some run ends like
  that (`LosingRun`). Wakeups are never lost exactly in the runs in which every
  write of the word finds the relay queued (`WakeupExact`); as a count, with fewer
  than 20000 relay calls since the counter was set, or 10000 with both channels
  open (`MarkInTime`, `HalvesExact`).
- `copy_block` is documented as a copy. It is one for all memory contents exactly
  when the destination does not start inside the source or the size is at most
  8 MiB (`CopyBlockExact`).
- The region ids under which `main.cpp` creates the queue managers are the ids of
  the registry exactly when each device i > 0 with regions satisfies i times the
  size of device i - 1 = the regions before device i (`InitIdsAgree`). Where every
  device has a region that means: all but the last are equally large
  (`InitIdsEqual`).
- `main.cpp` says that `allocInitPRR` guarantees each service a region. For given
  numbers of usable regions it does so in every system exactly when service s can
  use more than s regions, for every s (`InitGuarantee`); otherwise there is a
  system in which the first service that cannot gets none (`InitStarves`).
- `scale` divides by the total load under contention. The division is defined for
  all loads exactly when there is no contention between the same services while
  idle (`DivisionExact`), for instance while thresholds are at least 0.8
  (`HighThresholds`); with a threshold of 0.5 it need not be (`LowThreshold`).

## Model

| member | source | states |
|---|---|---|
| DmaEngine.Engine.constructor | linux64/driver/aclpci_dma.c:133-153 | A fresh engine is idle with nothing pinned and nothing sent |
| DmaEngine.Engine.ReadWrite | linux64/driver/aclpci_dma.c:1362-1396 | Records the request and takes the last id of its direction from the controller |
| DmaEngine.Engine.GetUserPages | linux64/driver/aclpci_cmd.c:297-342 | However few pages each kernel call pins, the loop ends with exactly the frames of the asked pages, in order, and counts each once |
| DmaEngine.Engine.LockDmaBuffer | linux64/driver/aclpci_dma.c:333-416 | Pins exactly the pages the range touches and records first and last offset |
| DmaEngine.Engine.UnlockDmaBuffer | linux64/driver/aclpci_dma.c:419-466 | Gives back as many pages as the region held |
| DmaEngine.Engine.UnlockAllDma | linux64/driver/aclpci_dma.c:468-485 | Releases whichever of the three regions are held |
| DmaEngine.Engine.GetStartId | linux64/driver/aclpci_dma.c:600-629 | The slot after the last one used, 0 after 127 or a reset, an error for any other value |
| DmaEngine.Engine.SetDesc | linux64/driver/aclpci_dma.c:500-524 | Slot i of the table of the direction, source and destination by direction |
| DmaEngine.Engine.SendDmaDesc | linux64/driver/aclpci_dma.c:552-598 | Hands slots 0 to n-1 to the controller and remembers the last id in both places |
| DmaEngine.Engine.PieceSize | linux64/driver/aclpci_dma.c:662-705 | The shifting loop finds the largest power of two in a partial page, or fails below 4 bytes |
| DmaEngine.Engine.NonAlignedPageHandler | linux64/driver/aclpci_dma.c:631-731 | One descriptor of that power of two, or the error return |
| DmaEngine.Engine.SendPiece | linux64/driver/aclpci_dma.c:692-731 | One descriptor is sent, host, device and page offset move by its length, and a finished page is left behind |
| DmaEngine.Engine.NextRegion | linux64/driver/aclpci_dma.c:857-887 | Retires an exhausted region and takes the pre-pinned one or pins anew, dropping a spilled last page |
| DmaEngine.Engine.FillTable | linux64/driver/aclpci_dma.c:922-938 | The loop fills slots 0 to n-1 with one whole page each, ids from start on |
| DmaEngine.Engine.SendFull | linux64/driver/aclpci_dma.c:922-955 | Table, counters, doorbell and the release of the done region together are SendPages |
| DmaEngine.Engine.PrePinRegion | linux64/driver/aclpci_dma.c:956-967 | The next region is pinned exactly when this one is used up and bytes remain |
| DmaEngine.Engine.TransmitPages | linux64/driver/aclpci_dma.c:910-970 | The full-table branch with its error return |
| DmaEngine.Engine.Finish | linux64/driver/aclpci_dma.c:818-852 | The completion branch resets the ids, unpins the active and done regions and goes idle |
| DmaEngine.Engine.Update | linux64/driver/aclpci_dma.c:783-974 | A call of the driver is the function Update on the state struct, result code included |
| DmaEngine.Engine.Transfer | linux64/driver/aclpci_dma.c:783-974 | Repeated updates end; then the engine is idle with the starting lock count, and the batches sent tile the request |
| DmaSpec.LockSize | linux64/driver/aclpci_dma.c:865-866 | While bytes remain, a pin asks for some of them and no more |
| DmaSpec.Piece | linux64/driver/aclpci_dma.c:662-705 | At most n and more than half of n |
| DmaInvariant.TilesAppend | linux64/driver/aclpci_dma.c:939-950 | Batches that follow each other tile the joined range |
| DmaInvariant.PrepareOk | linux64/driver/aclpci_dma.c:855-887 | After the region switch there is a live region with pages left that maps the next user pages, and nothing was sent or lost |
| DmaInvariant.PartialShape | linux64/driver/aclpci_dma.c:889-908 | Sending part of a partial page leaves a region that still ends where it should |
| DmaInvariant.PartialOk | linux64/driver/aclpci_dma.c:898-908 | The partial-page branch sends one correctly placed descriptor and keeps the invariant |
| DmaInvariant.WholePages | linux64/driver/aclpci_dma.c:889-910 | When that branch is not taken the region starts at a page boundary with a whole page left, so the last return is never reached |
| DmaInvariant.FullOk | linux64/driver/aclpci_dma.c:910-970 | The full-table branch sends whole pages in order, never past id 127, and keeps the invariant |
| DmaInvariant.UpdateSends | linux64/driver/aclpci_dma.c:855-973 | Every busy update with bytes left reports work, sends at least 64 bytes and at most what remains as a tiling batch with consecutive ids, and keeps the invariant |
| DmaBatches.UpdateFills | linux64/driver/aclpci_dma.c:889-967 | Every busy update sends one piece of a page, or whole pages until its region is used up, less than a page of the transfer is left or the table is full to slot 127; it pins the next region exactly when this one is used up and bytes remain |
| DmaBatches.PrepareLeaves | linux64/driver/aclpci_dma.c:877-884 | Of a new region all pages are left to send, but for the part of a page after more than 256 others |
| DmaBatches.LockBounds | linux64/driver/aclpci_dma.c:865-866 | A pin takes at most 385 pages, and at least 256 unless it reaches the end of the transfer |
| DmaBatches.LockedBounded | linux64/driver/aclpci_dma.c:333-416 | Over every run at most 770 pages are locked at a time on top of what was locked before |
| DmaTransfer.SinceStep | linux64/driver/aclpci_dma.c:783-974 | Adding a batch extends the tiled prefix of the request |
| DmaTransfer.StartOk | linux64/driver/aclpci_dma.c:1362-1396 | Recording a 64-byte aligned request starts a transfer that satisfies the invariant |
| DmaTransfer.CompleteOk | linux64/driver/aclpci_dma.c:818-852 | With nothing left the update unpins everything, resets both ids and goes idle |
| DmaTransfer.UnlockAllOk | linux64/driver/aclpci_dma.c:468-485 | The error path leaves nothing pinned and the lock counter lower by exactly the pages held |
| DmaTransfer.CutExact | linux64/driver/aclpci_dma.c:889-898 | Exactly when the 32-bit cut sends a due whole page as a partial one |
| DmaCut.CutReached | linux64/driver/aclpci_dma.c:889-898 | A write of 255 pages, 4 GiB and 2048 bytes meets the cut at its third update |
| DmaTransfer.BitsPiece | linux64/driver/aclpci_dma.c:662-705 | Each piece is one one-bit of the size |
| DmaTransfer.PartialRun | linux64/driver/aclpci_dma.c:645-732 | A partial page of s bytes takes popcount(s) updates, each one power-of-two descriptor |
| DmaTransfer.IdsStep | linux64/driver/aclpci_dma.c:600-629 | A batch continues the ids of its direction modulo 128 |
| DmaMemory.DistinctFramesNoAlias | linux64/driver/aclpci_dma.c:885-886 | Distinct frames give distinct physical bytes |
| DmaMemory.TilesWrite | linux64/driver/aclpci_dma.c:513-524 | Executing tiling descriptors to the device is a memcpy that changes nothing else |
| DmaMemory.TilesRead | linux64/driver/aclpci_dma.c:500-511 | The same from the device, for user pages that do not alias |
| DmaMemory.TransferIsMemcpy | linux64/driver/aclpci_dma.c:783-974 | Executing the batches of a finished transfer from any memory is a memcpy of the request |
| DmaProtocol.NextInv | linux64/driver/aclpci.c:327-369 | Starts, completions, DMA and kernel interrupts, thread-sync commands and work items keep the invariant, in any order |
| DmaProtocol.InvCanUpdate | linux64/driver/aclpci_dma.c:885-892 | In every such state the update finds the pages it reads |
| DmaProtocol.Handshake | linux64/driver/aclpci_dma.c:260-290 | Over every run at most one batch is outstanding, every completion causes exactly one update of the transfer whichever interrupt saw its flag and whether or not the host channels had queued the work item, and a batch is sent only after every earlier flag was seen |
| DmaProtocol.AnyInterruptServes | linux64/driver/aclpci.c:327-369 | A DMA and a kernel interrupt alike find the flag of a finished batch, clear it and queue the update |
| DmaProtocol.IdleMeansCopied | linux64/driver/aclpci_dma.c:1362-1396 | In any run, when the engine is idle after the request of step i, all batches are executed, all pins released, and the batches sent since that step copy exactly the user and device range that step names, in its direction |
| DmaProtocol.RunIds | linux64/driver/aclpci_dma.c:600-629 | Over any run each direction uses ids 0 to 127 in order, again and again |
| DmaProtocol.NeverStuck | linux64/driver/aclpci.c:254-279 | A running transfer always has a possible step, and a set flag always has a pending interrupt |
| DmaProtocol.Progress | linux64/driver/aclpci_dma.c:260-290 | Every step of a running transfer but a kernel interrupt lowers a measure, and kernel interrupts and idle relays do not raise it |
| DmaPins.UpdatePinned | linux64/driver/aclpci_dma.c:948-967 | All user memory of the batch just sent lies in the active region, which is pinned |
| DmaPins.PinsOverRuns | linux64/driver/aclpci_dma.c:823-887 | Over every run the outstanding batch only touches pinned pages, the done slot is empty between updates, a pre-pinned region exists only while the active one is exhausted and bytes remain, and the lock count is exact |
| Packing.PackExact | linux64/driver/aclpci_dma.c:500-524 | Addresses always survive packing; length and id do exactly when they fit 18 and 14 bits |
| Packing.PackUnique | linux64/driver/aclpci_dma.c:500-524 | Different descriptors make different entries |
| Packing.TileFits | linux64/driver/aclpci_dma.c:922-938 | Every descriptor of a tiling batch fits |
| Modular.SamePosition | linux64/driver/aclpci_dma.c:744-765 | No ABA: counters less than a buffer apart are equal exactly when their positions are |
| HostChannel.SpaceLeft | source/host/mmd/acl_pcie_hostch.cpp:556-563 | The pointer arithmetic of push gives size - 32 minus the bytes in flight |
| HostChannel.DataLeft | source/host/mmd/acl_pcie_hostch.cpp:605-611 | That of pull gives the bytes published and not yet acknowledged |
| HostChannel.WholeWords | source/host/mmd/acl_pcie_hostch.cpp:671-674 | An acknowledgement is rounded down to whole 32-byte words, by less than one |
| HostChannel.AdvancedPosition | source/host/mmd/acl_pcie_hostch.cpp:676-681 | The pointer moves to the position of the advanced counter, also at the wrap |
| HostChannel.PushExact | source/host/mmd/acl_pcie_hostch.cpp:535-584 | Offer and acknowledgement of push in terms of the counters, for any request; nothing is offered exactly when the buffer is full |
| HostChannel.PullExact | source/host/mmd/acl_pcie_hostch.cpp:585-631 | The same for pull; nothing is offered exactly when there is nothing |
| HostChannel.PushAck | source/host/mmd/acl_pcie_hostch.cpp:645-686 | Acknowledging no more than was offered is taken in full, rounded down to 32, whatever the FPGA freed in between |
| HostChannel.PullAck | source/host/mmd/acl_pcie_hostch.cpp:687-729 | On pull exactly the acknowledged bytes are taken |
| HostChannel.Channels.GetBuffer | source/host/mmd/acl_pcie_hostch.cpp:532-639 | Position, size and status for both channels, closed and unknown ones included; the second halves of the offer are unreachable |
| HostChannel.Channels.SyncThread | source/host/mmd/acl_pcie_hostch.cpp:224-246 | Calls the driver exactly when the sync word is valid and 0 |
| HostChannel.Channels.AckPush | source/host/mmd/acl_pcie_hostch.cpp:653-686 | Takes what PushTaken says, moves the shared pointer with the counter and then calls sync_thread |
| HostChannel.Channels.AckPull | source/host/mmd/acl_pcie_hostch.cpp:695-729 | The same for pull |
| HostChannel.Channels.AckBuffer | source/host/mmd/acl_pcie_hostch.cpp:643-736 | Dispatch and error codes; the other channel is untouched, and the driver is called exactly after an acknowledgement on an open channel that finds the sync word 0 |
| HostChannelProtocol.OfferedIsFree | source/host/mmd/acl_pcie_hostch.cpp:565-584 | The region handed out to the user holds no byte the FPGA still has to read |
| HostChannelProtocol.OfferedIsStream | source/host/mmd/acl_pcie_hostch.cpp:613-631 | What the user sees in the offered region of pull is the stream |
| HostChannelProtocol.OfferIsAll | source/host/mmd/acl_pcie_hostch.cpp:532-639 | After get_buffer the offer is all free or published bytes up to the end of the buffer |
| HostChannelProtocol.AckLeavesRest | source/host/mmd/acl_pcie_hostch.cpp:643-736 | Acknowledging part of an offer leaves the rest of it |
| HostChannelProtocol.PushAckedOk | source/host/mmd/acl_pcie_hostch.cpp:645-686 | An acknowledgement of any size appends the bytes in the buffer to the stream and keeps the ring consistent |
| HostChannelProtocol.PushUpdateOk | linux64/driver/aclpci_dma.c:735-755 | Comparing wrapped pointers finds every advance; afterwards the driver's counter is the user's |
| HostChannelProtocol.PullUpdateOk | linux64/driver/aclpci_dma.c:759-780 | The same for pull |
| HostChannelProtocol.PullFillOk | source/host/mmd/acl_pcie_hostch.cpp:599-611 | An FPGA that never fills the ring it was told about overwrites no byte the user has not taken |
| HostChannelProtocol.NextInv | linux64/driver/aclpci_dma.c:797-816 | User, relay and FPGA steps of both channels keep the invariant, in any order |
| HostChannelProtocol.PushIsFifo | source/host/mmd/acl_pcie_hostch.cpp:645-686 | Over every run the FPGA reads exactly the acknowledged bytes in order, F <= R <= D <= W <= F + size - 32 in whole words, and the offered region never overlaps unread data |
| HostChannelProtocol.PullIsFifo | source/host/mmd/acl_pcie_hostch.cpp:687-729 | Over every run the user is handed exactly the FPGA's bytes, and what is offered is already final |
| HostChannelData.WrittenArrives | source/host/mmd/acl_pcie_hostch.cpp:645-686 | In any run the byte the user wrote last at an offset of the offer, before the acknowledgement that covers it, is the byte the FPGA reads at that place of the stream |
| HostChannelData.StoredArrives | source/host/mmd/acl_pcie_hostch.cpp:687-729 | In any run the user is handed, and sees before acknowledging, exactly the bytes the FPGA stored, in order |
| HostChannelProtocol.RelayInv | linux64/driver/aclpci_dma.c:797-816 | One call of the relay keeps the invariant and leaves no acknowledgement unseen |
| HostChannelWakeup.WakeupExact | linux64/driver/aclpci_dma.c:1127-1146 | Over any run, unseen acknowledgements keep the relay queued or their thread busy and the sync word is set only while the relay is queued, if and only if every write of the word finds the relay queued |
| HostChannelWakeup.LateMarkIsFatal | linux64/driver/aclpci_dma.c:1135-1137 | One later write ends the relaying of both channels for the rest of the run |
| HostChannelWakeup.LosingRun | linux64/driver/aclpci_dma.c:1135-1137 | From every start with a push channel there is a run that leaves an acknowledgement unseen with its thread back in user code and the relay stopped for good |
| HostChannelWakeup.HalvesExact | linux64/driver/aclpci_dma.c:1133-1137 | With k relay calls between the halves of the command and nothing new, the relay is still queued exactly if k times the open channels is below 20000 |
| HostChannelWakeup.MarkInTime | linux64/driver/aclpci_dma.c:1133-1137 | In any run, whatever else happens, that few calls suffice for the write to find the relay queued |
| HostChannelWakeup.QuietRelays | linux64/driver/aclpci_dma.c:797-816 | The state after k relay calls with nothing new: the counter has gone down by k times the open channels, and once it is 0 the relay has stopped and the sync word is 0 |
| HostChannelWakeup.RelayRearms | linux64/driver/aclpci_dma.c:735-780 | A relay call that finds news sets the counter to 20000, less one for an open push channel without news, and stays queued |
| HostChannelWakeup.NewsLasts | linux64/driver/aclpci_dma.c:797-816 | After news the relay stays queued for exactly as many quiet calls as that counter allows, however low it was |
| HostChannelWakeup.DutyStep | source/host/mmd/acl_pcie_hostch.cpp:224-246 | Every step of sync_thread and its command brings its own thread closer to the return and leaves the other alone; a check goes on to the driver exactly if the sync word is 0 |
| HostChannelWakeup.AckReturns | source/host/mmd/acl_pcie_hostch.cpp:643-736 | Over any run an acknowledgement costs at most four such steps |
| HostChannelWakeup.PushNeverStuck | linux64/driver/aclpci_dma.c:797-816 | While a push channel holds bytes, the FPGA can read or free some, or a thread or the relay can move |
| HostChannelWakeup.PullNeverStuck | linux64/driver/aclpci_dma.c:797-816 | While a pull channel holds bytes the FPGA may not overwrite, it can publish, the user can take a byte, or a thread or the relay can move |
| Registry.Find | source/util/vFPGAScaler/src/resourceregistry.cpp:89-100 | The located region exists and has that id |
| Registry.Bijection | source/util/vFPGAScaler/src/resourceregistry.cpp:102-137 | Global ids number all regions from 0 to getNumPRRs() - 1 exactly once, and device and local id invert them |
| Registry.FlatAt | source/util/vFPGAScaler/src/resourceregistry.cpp:206-219 | The running counter of the loops is the global id |
| Registry.PutFlat | source/util/vFPGAScaler/src/resourceregistry.cpp:154-176 | Changing one region of one device changes one region of the global order |
| Registry.ResourceRegistry.Register | source/util/vFPGAScaler/src/resourceregistry.cpp:11-25 | Devices are numbered in order |
| Registry.ResourceRegistry.GetNumPRRs | source/util/vFPGAScaler/src/resourceregistry.cpp:77-86 | The number of regions |
| Registry.ResourceRegistry.GetGlobPRRID | source/util/vFPGAScaler/src/resourceregistry.cpp:102-123 | The id for an existing pair, the error exit for any other |
| Registry.ResourceRegistry.GetDeviceID | source/util/vFPGAScaler/src/resourceregistry.cpp:89-100 | The device of a valid id, the error exit otherwise |
| Registry.ResourceRegistry.GetLocPRRID | source/util/vFPGAScaler/src/resourceregistry.cpp:126-137 | The local id of a valid id, the error exit otherwise |
| Registry.ResourceRegistry.GetEntryByGlobPRRID | source/util/vFPGAScaler/src/resourceregistry.cpp:33-47 | The counting lookup agrees with the computed ids |
| Registry.ResourceRegistry.GetPRRStatus | source/util/vFPGAScaler/src/resourceregistry.cpp:139-152 | The status of the region with that id |
| Registry.ResourceRegistry.SetPRRStatus | source/util/vFPGAScaler/src/resourceregistry.cpp:154-176 | Changes the status of that region only, or reports an invalid id |
| Registry.ResourceRegistry.IsPrgWith | source/util/vFPGAScaler/src/resourceregistry.cpp:206-219 | Yes exactly for a valid id whose region is programmed with the service |
| Registry.ResourceRegistry.SetPRRPrgStatus | source/util/vFPGAScaler/src/resourceregistry.cpp:221-235 | Changes what that region is programmed with and nothing else |
| Registry.InitIdsAgree | source/util/vFPGAScaler/src/main.cpp:158-166 | For every registry: the ids of the queue managers are the registry's ids exactly when, for each device i > 0 with regions, i times the size of its predecessor is the number of regions before it |
| Registry.InitIdsEqual | source/util/vFPGAScaler/src/main.cpp:158-166 | If every device has a region, exactly when all devices but the last are equally large |
| Services.ServiceRegistry.RegisterService | source/util/vFPGAScaler/src/serviceregistry.cpp:18-60 | Services are numbered in order and start without instances |
| Services.ServiceRegistry.IsThereBinFor | source/util/vFPGAScaler/include/serviceregistry.h:28-38 | Yes exactly when a bitstream for that device and region is listed |
| Services.ServiceRegistry.AddInstance | source/util/vFPGAScaler/src/serviceregistry.cpp:130-147 | Appends a region unless it is already listed |
| Services.ServiceRegistry.RemoveLastInstance | source/util/vFPGAScaler/src/serviceregistry.cpp:149-158 | Removes and returns the last region |
| Services.ServiceRegistry.IncrRRFlag | source/util/vFPGAScaler/src/serviceregistry.cpp:167-170 | Counts one more request of that service |
| Services.TaskQueueManager.DeterminePRR | source/util/vFPGAScaler/src/queuemanager.cpp:154-165 | Answers the id of NextInstance and leaves the service AfterRequest, the two functions RequestsAreFair and ChoiceIsNext are about |
| Services.HitsClosed | source/util/vFPGAScaler/src/queuemanager.cpp:157-163 | Closed form of how often an instance is chosen |
| Services.RoundRobinIsFair | source/util/vFPGAScaler/src/queuemanager.cpp:157-165 | Any k consecutive choices among m instances hit each k/m times, rounded down or up |
| Services.RequestsAreFair | source/util/vFPGAScaler/src/queuemanager.cpp:154-165 | Among the regions of any k consecutive requests of a service each of its m different instances occurs k/m times, rounded down or up; any m requests reach all |
| Pools.AddOneOwn | source/util/vFPGAScaler/src/resourcescaler.cpp:302-305 | Giving a free region to a service keeps ownership exact |
| Pools.DropLastOwn | source/util/vFPGAScaler/src/resourcescaler.cpp:244-249 | Taking the last region of a service keeps ownership exact |
| Allocator.SortedAscending | source/util/vFPGAScaler/src/resourcescaler.cpp:292-294 | The sorted list is strictly increasing in (size, id) |
| Allocator.SortedMembers | source/util/vFPGAScaler/src/resourcescaler.cpp:292-294 | and has the same members |
| Allocator.OrderOk | source/util/vFPGAScaler/src/resourcescaler.cpp:281-300 | The growth loop visits every region, smallest first |
| Allocator.GrowOk | source/util/vFPGAScaler/src/resourcescaler.cpp:296-306 | One growth loop takes usable free regions in that order up to the target, passes none over, and changes no other service |
| Allocator.ShrinkByOk | source/util/vFPGAScaler/src/resourcescaler.cpp:239-251 | Releasing k regions leaves exactly the first instances and frees the others |
| Allocator.AllocOk | source/util/vFPGAScaler/src/resourcescaler.cpp:228-313 | allocPRR keeps ownership; services above target keep exactly their first instances; no growing service is below target while a region it can use is free, or holds a new region larger than one it could use that is free or went to a service served later |
| Allocator.FirstFitOk | source/util/vFPGAScaler/src/resourcescaler.cpp:209-220 | No earlier region could be used |
| Allocator.InitOneOk | source/util/vFPGAScaler/src/resourcescaler.cpp:205-224 | A service gets the first region it can use, or nothing exactly if there is none |
| Allocator.InitAllOk | source/util/vFPGAScaler/src/resourcescaler.cpp:202-226 | allocInitPRR keeps ownership and gives each service at most one more region |
| Allocator.InitServes | source/util/vFPGAScaler/src/main.cpp:286-288 | A service that can use more regions than there are services before it gets one |
| InitGuarantee.InitStarves | source/util/vFPGAScaler/src/main.cpp:286-288 | Whatever the counts, if service s is the first that can use no more regions than there are services before it, a system with these counts leaves it without |
| InitGuarantee.InitGuarantee | source/util/vFPGAScaler/src/main.cpp:286-288 | All systems with given counts of usable regions serve every service if and only if each count exceeds the number of services before |
| Scaler.SharesSum | source/util/vFPGAScaler/src/resourcescaler.cpp:100-103 | Rounding moves the sum of the shares by at most half a region a service, and by less downwards |
| Scaler.TargetsOk | source/util/vFPGAScaler/src/resourcescaler.cpp:75-104 | All targets are at least 1; without contention they fit; under contention P - S/2 < total <= P + S/2 |
| ScalerLaws.TargetsExact | source/util/vFPGAScaler/src/resourcescaler.cpp:75-104 | Contention by counts of held, rising, falling and bare services; without it every service gets one region more exactly if its load is above threshold - 0.8, otherwise one less, never under one; with it one region plus its share of the others by load, rounded to the nearest number |
| ScalerLaws.SharesFollowLoads | source/util/vFPGAScaler/src/resourcescaler.cpp:98-104 | Under contention a larger load never gets fewer regions, and no load gets one |
| Scaler.TargetsUndefined | source/util/vFPGAScaler/src/resourcescaler.cpp:98-104 | For given loads there are no targets exactly under contention with a load that is no number or with no load at all |
| Scaler.DivisionExact | source/util/vFPGAScaler/src/resourcescaler.cpp:98-104 | Before any load is known: scaling is defined for all loads if and only if there is no contention between idle services |
| Scaler.HighThresholds | source/util/vFPGAScaler/src/resourcescaler.cpp:75-82 | So it is while thresholds are at least 0.8 and every service has a region |
| Scaler.LowThreshold | source/util/vFPGAScaler/src/resourcescaler.cpp:98-104 | One idle service on the only region with a threshold of 0.5 |
| Scaler.RescalePossible | source/util/vFPGAScaler/src/resourcescaler.cpp:98-104 | With thresholds of at least 0.8, services that each own a region can be rescaled for all loads |
| Scaler.HeldFits | source/util/vFPGAScaler/src/resourcescaler.cpp:233-238 | Under exact ownership the services never hold more regions than there are |
| Scaler.RescaleKeepsServing | source/util/vFPGAScaler/src/resourcescaler.cpp:239-251 | Scaling then allocating never takes the last region of a service, whatever the thresholds |
| Scaler.RoundsKeepServing | source/util/vFPGAScaler/src/resourcescaler.cpp:20-119 | Over any number of rounds with any loads and thresholds ownership stays exact and every service keeps a region |
| ScalerLaws.AverageBetween | source/util/vFPGAScaler/src/resourcescaler.cpp:165-186 | Each component of an average lies between the least and the greatest value of that field |
| ScalerLaws.AverageConstant | source/util/vFPGAScaler/src/resourcescaler.cpp:165-186 | A window of equal entries averages to that entry |
| ScalerLaws.AverageJoin | source/util/vFPGAScaler/src/resourcescaler.cpp:165-186 | Every entry weighs the same, so with the row before only the mean is left |
| ScalerLaws.LoadDefined | source/util/vFPGAScaler/src/resourcescaler.cpp:51-65 | A service has a load exactly if it has regions and all their averages are numbers |
| ScalerLaws.LoadConstant | source/util/vFPGAScaler/src/resourcescaler.cpp:51-65 | Regions with queue length q and throughput t give the load q / t, and 0 for t = 0 |
| ScalerLaws.LoadBetween | source/util/vFPGAScaler/src/resourcescaler.cpp:51-65 | A load lies between the loads its regions have alone |
| ScalerLaws.LoadJoin | source/util/vFPGAScaler/src/resourcescaler.cpp:51-65 | Every region weighs the same |
| ScalerLaws.LoadGrows | source/util/vFPGAScaler/src/resourcescaler.cpp:51-65 | At positive throughput a longer queue never makes a load smaller |
| ScalerLaws.LoadsOwn | source/util/vFPGAScaler/src/resourcescaler.cpp:41-65 | From windows to loads: a service whose windows all report q and t has the load q / t, whatever the others report |
| ScalerLaws.LoadsDefined | source/util/vFPGAScaler/src/resourcescaler.cpp:41-65 | A service is without a load exactly if it has no region or one with an empty window |
| ScalerObject.ResourceScaler.GetAvgWindow | source/util/vFPGAScaler/src/resourcescaler.cpp:165-186 | The loop computes the average the laws of ScalerLaws are about, no number for an empty window |
| ScalerObject.ResourceScaler.ServiceLoad | source/util/vFPGAScaler/src/resourcescaler.cpp:51-65 | The loop computes the mean work of the regions, no number without regions |
| ScalerObject.ResourceScaler.Scale | source/util/vFPGAScaler/src/resourcescaler.cpp:20-104 | The loops compute exactly the targets of TargetsExact, for all windows and instance lists |
| ScalerObject.ResourceScaler.InitService | source/util/vFPGAScaler/src/resourcescaler.cpp:207-222 | The nested loops stop at the first region the service can use |
| ScalerObject.ResourceScaler.AllocInitPRR | source/util/vFPGAScaler/src/resourcescaler.cpp:202-226 | The loops compute InitAll on both registries |
| ScalerObject.ResourceScaler.SizesAndIds | source/util/vFPGAScaler/src/resourcescaler.cpp:282-290 | The vector holds size and id of every region in id order |
| ScalerObject.ResourceScaler.ShrinkService | source/util/vFPGAScaler/src/resourcescaler.cpp:240-250 | The release loop computes ShrinkTo |
| ScalerObject.ResourceScaler.GrowOnce | source/util/vFPGAScaler/src/resourcescaler.cpp:297-305 | One round looks up the region by its id and takes it if it is wanted, free and has a bitstream |
| ScalerObject.ResourceScaler.GrowService | source/util/vFPGAScaler/src/resourcescaler.cpp:256-309 | The growth loop computes GrowTo |
| ScalerObject.ResourceScaler.AllocPRR | source/util/vFPGAScaler/src/resourcescaler.cpp:228-313 | The loops compute Alloc on both registries |
| RequestProtocol.FittingProgram | source/util/vFPGAScaler/src/queuemanager.cpp:235-257 | Reprogramming a region disturbs no other application |
| RequestProtocol.NextInv | source/util/vFPGAScaler/src/queuemanager.cpp:76-126 | Every step of applications and daemons keeps the invariant |
| RequestProtocol.Safety | source/util/vFPGAScaler/src/mmdapp.cpp:36-71 | In every state of every run a region has at most one holder, is RUNNING exactly while held, and is programmed with the service of an application running on it |
| RequestProtocol.FirstComeFirstServed | source/util/vFPGAScaler/src/queuemanager.cpp:303-330 | The task queue takes requests in arrival order, and every region grants exactly the requests sent to it in that order |
| RequestProtocol.Fairness | source/util/vFPGAScaler/src/queuemanager.cpp:157-165 | In any run any k consecutive requests of a service reach each of its m regions k/m times, rounded down or up |
| RequestProtocol.ChoiceIsNext | source/util/vFPGAScaler/src/queuemanager.cpp:76-101 | A request is dispatched to the region the round robin of the registry chooses, and both move on in step |
| RequestProtocol.Progress | source/util/vFPGAScaler/src/queuemanager.cpp:40-152 | Every step lowers a global measure |
| RequestProtocol.NeverStuck | source/util/vFPGAScaler/src/queuemanager.cpp:303-330 | While an application is unfinished some step is possible |
| RequestProtocol.EveryRunServesAll | source/util/vFPGAScaler/src/mmdapp.cpp:17-71 | With n applications every run has at most 9n steps, and a run that cannot go on has served all of them with all regions READY |
| RequestPrograms.QueuedOnlyToProgram | source/util/vFPGAScaler/src/queuemanager.cpp:102-124 | Over any run an application waits for a device only while the region it holds has another program |
| RequestPrograms.AnsweredAtOnce | source/util/vFPGAScaler/src/queuemanager.cpp:102-124 | A GETPRG request for a region that already has the program is answered at once, and its application never waits for a device; any other one does wait |
| RequestPrograms.ArrivedIsAsked | source/util/vFPGAScaler/src/mmdapp.cpp:122-126 | What arrives at the task queue are the calls of getDevice, in order |
| RequestPrograms.ProgramsInOrder | source/util/vFPGAScaler/src/queuemanager.cpp:222-263 | No request overtakes another one in the queue of a device |
| RequestPrograms.TasksInOrder | source/util/vFPGAScaler/src/queuemanager.cpp:40-152 | nor in the task queue, whatever its kind |
| QueueManagers.System.RequestDevice | source/util/vFPGAScaler/src/mmdapp.cpp:122-126 | getDevice up to its wait is the step Request |
| QueueManagers.System.ServeDev | source/util/vFPGAScaler/src/queuemanager.cpp:77-101 | Serving a GETDEV request is the step Task |
| QueueManagers.System.ServePrg | source/util/vFPGAScaler/src/queuemanager.cpp:102-124 | Serving a GETPRG request is the step Task, with both outcomes |
| QueueManagers.System.TaskIteration | source/util/vFPGAScaler/src/queuemanager.cpp:40-152 | One iteration of the task daemon never meets a request in the wrong state |
| QueueManagers.System.PrrPop | source/util/vFPGAScaler/src/queuemanager.cpp:303-308 | A region's daemon takes its next request in hand |
| QueueManagers.System.PrrGrant | source/util/vFPGAScaler/src/queuemanager.cpp:310-323 | and grants it once the region is READY, answering the application that waits for it |
| QueueManagers.System.RequestProgram | source/util/vFPGAScaler/src/mmdapp.cpp:186-194 | The wait of getDevice has ended, and getProgram asks for the granted region |
| QueueManagers.System.PrIteration | source/util/vFPGAScaler/src/queuemanager.cpp:222-263 | One iteration of a device's daemon programs the region of the request it popped |
| QueueManagers.System.StartKernel | source/util/vFPGAScaler/src/mmdapp.cpp:196-216 | The wait of getProgram has ended |
| QueueManagers.System.ReleaseDevice | source/util/vFPGAScaler/src/mmdapp.cpp:581-587 | The held region becomes READY |
| BarWindow.MoveIsCopy | source/host/mmd/acl_pcie_device.cpp:883-898 | Copying byte by byte is a memcpy |
| BarWindow.MoveSplit | source/host/mmd/acl_pcie_device.cpp:826-876 | Consecutive pieces are one copy |
| BarWindow.MovedSwapped | source/host/mmd/acl_pcie_device.cpp:792-816 | Two neighbouring pieces are one memcpy also when the later one is copied first |
| BarDevice.Board.Small | linux64/driver/aclpci_fileio.c:234-338 | Accesses of 1, 2, 4 or 8 bytes copy exactly those bytes |
| BarDevice.Board.FillBuffer | linux64/driver/aclpci_fileio.c:376-411 | Words, then the last bytes: the buffer holds the device bytes, each read once |
| BarDevice.Board.DrainBuffer | linux64/driver/aclpci_fileio.c:376-411 | The same towards the device |
| BarDevice.Board.RwLarge | linux64/driver/aclpci_fileio.c:345-434 | An exact copy for any length, chunk by chunk |
| BarDevice.Board.Access | linux64/driver/aclpci_fileio.c:575-595 | Small and large accesses of any size and alignment both copy exactly |
| BarDevice.Device.constructor | source/host/mmd/acl_pcie_device.cpp:137-139 | Afterwards the cached segment is the one in the hardware, whatever was there before |
| BarDevice.Device.SetSegment | source/host/mmd/acl_pcie_device.cpp:902-926 | Cache and hardware hold the window start of the address, written only on a change |
| BarDevice.Device.ReadWriteSmallSize | source/host/mmd/acl_pcie_device.cpp:883-898 | Byte accesses inside the window copy the range |
| BarDevice.Device.Window | source/host/mmd/acl_pcie_device.cpp:834-872 | Odd start, aligned words and tail together copy one window's part |
| BarDevice.Device.ReadWriteBlockBar | source/host/mmd/acl_pcie_device.cpp:820-879 | Ends for every address and size and is the byte-by-byte copy; exactly size bytes cross the window, and exactly the bytes outside whole aligned words cross it one by one |
| BlockDevice.DmaPart | source/host/mmd/acl_pcie_device.cpp:779-785 | From 1024 bytes on the DMA part is itself a request the driver takes for DMA, and less than 64 bytes are left |
| BlockDevice.BlockIO.Dma | source/host/mmd/acl_pcie_dma_linux.cpp:121-136 | The engine's batches, executed, are a memcpy |
| BlockDevice.BlockIO.ReadWriteBlock | source/host/mmd/acl_pcie_device.cpp:756-816 | DMA part and BAR remainder together are a memcpy of the whole range, for every address and size; DMA is used exactly for aligned blocks from 1024 bytes on, for all but the last size % 64 bytes |
| BlockDevice.BlockIO.CopyBlock | source/host/mmd/acl_pcie_device.cpp:710-738 | The loop through the buffer is Blocks, and a correct copy under the condition below |
| CopyBlock.BlocksRight | source/host/mmd/acl_pcie_device.cpp:725-733 | Downward, disjoint or single-block copies are correct |
| CopyBlock.BlocksWrong | source/host/mmd/acl_pcie_device.cpp:725-733 | For every other range some contents are copied wrongly |
| CopyBlock.CopyBlockExact | source/host/mmd/acl_pcie_device.cpp:710-738 | All contents are copied correctly exactly when the destination does not start inside the source or one block is enough |

## Left out

- DmaEngine.Engine.GetUserPages: kernel calls always pin some pages, so the release of a half-pinned range is not modelled; what the kernel answers is foreign.
- DmaEngine.Engine.LockDmaBuffer: allocations and pins succeed, and the error returns are not modelled.
- DmaEngine.Engine.NextRegion: the same assumption, so its return for a failed pin is not modelled.
- DmaEngine.Engine.PrePinRegion: the same assumption, so its return for a failed pre-pin is not modelled.
- DmaEngine.Engine.Update: the host-channel polling of an idle engine is not in the object; its relay is the step Work of HostChannelProtocol, and its use of the shared work item is in DmaProtocol.
- `user_task` signals, timing, logging, register set-up and the MSI configuration: hardware or foreign calls; the controller and the FPGA appear only as environment steps.
- The value of `m_cur_dma_addr` once a region has no page left: it is read one past the page array and refreshed before use.
- Interrupts that are ignored while a core is being reconfigured (linux64/driver/aclpci.c:315), and unlocked reads of `m_idle` inside one update: one update and one interrupt are atomic steps.
- Machine addresses that wrap around: addresses and sizes are natural numbers, except for the 32-bit `first_size` and the packed entries.
- Creating, closing and re-creating host channels: one session from fresh pointers is modelled.
- The wakeup of a host channel while a bulk transfer runs: an acknowledgement then gets no relay if the loop counter is already 0.
- The values in partly written 8-byte pointers and memory ordering between host and FPGA: every pointer access is one step.
- Scaler.TargetsOk: loads are reals or no number, so float rounding and infinities are not covered.
- The sliding windows and the throughput measurements that produce the loads: they are inputs of `Scale`.
- The call of `allocPRR` from `scale`, which is commented out in the source (resourcescaler.cpp:119): the two are proved as a pair.
- RequestProtocol.FirstComeFirstServed: queue operations are atomic steps; unprotected accesses to `std::queue` are not covered.
- RequestProtocol.EveryRunServesAll: the regions of each service stay the same during a run, every requested service has at least one, and the queue managers are found under the registry's ids.
- Services.RoundRobinIsFair: the flag is unbounded, so its overflow is not covered.
- The GlobRR scheduling type, device handles after reprogramming, bitstream files and the kernels themselves.
- Endianness other than little-endian hosts, and `is_diff_endian`: words move their four bytes in address order.
- The kernel's own window switch `aclpci_set_segment`, `aclpci_pr.c`, `aclpci_queue.c`, the Windows DMA, and the older scheduler in `source/util/vFPGAScheduler`.
