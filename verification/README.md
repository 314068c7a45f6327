# nss-dp: verified model of the data-plane rings

A Dafny model of the parts of the Qualcomm NSS data-plane driver where the driver
shares state with hardware or with failing switch calls:

* **Synopsys GMAC rings** (`RingIndex`, `WordValue`, `SlotRing`, `SynDmaDesc`, `SynDescRing`,
  `SynStats`, `SynFifo`, `SynDevice`, `SynDrain`, `SynRuns`, `SynTransmitters`,
  `SynDataPlane`).
  Descriptor words, indices, skb lists and counters are updated in place by a class
  whose methods are the driver routines; a DMA engine that reads only descriptor
  words runs as environment. Every interleaving of driver turns and DMA steps is
  shown to be a run of two plain FIFO queues.
* **EDMA rings** (`EdmaPipe`, `EdmaRx`, `EdmaTx`, `EdmaRuns`, `EdmaDataPlane`,
  `EdmaRefill`, `EdmaTeardown`). Any number of producer and consumer rings share one
  skb store per direction; a slot number travels through the hardware and back. Every
  run conserves skbs and every report finds its own skb.
* **EDMA map registers** (`EdmaMap`), **slow-protocol filter** (`SlowProto`),
  **EEE link modes** (`EeeModes`).

`dafny verify dfyconfig.toml` checks everything.

## How the model is laid out

The value-level modules define states, atomic steps and runs, and prove what every run
keeps. The class modules (`SynDataPlane`, `EdmaDataPlane`, `SlowProto.SwitchCtx`) are the
imperative routines; each method is proved to perform steps of the value-level machine,
so the theorems about runs apply to every sequence of calls: on the Synopsys side the steps
are recorded in `history` and `KeepsOrder`, `Conserves` and `Counts` state the result for the
object; on the EDMA side the loops keep `Reaches` and single steps (`RingXmit`, the hardware
steps, single turns) state the `RxStep` or `TxStep` they are, which keeps `Reaches` by
`ReachesNext`; `RxReachedConserves` and `TxReachedMatches` follow from it.

What a routine should do is stated apart from how the code decides it: outcomes, counters,
descriptor contents and filter state are specified on bits, addresses and requests
(`GoodFrame`, `Asked`, `GoesUp`, `FilterOn` and the like), and the functions that follow the
code are proved to meet them.

Modelling decisions:

* All rings have 128 slots (SYN_DP_*_DESC_SIZE, EDMA_RING_SIZE). Descriptor pointers are
  offsets from the ring base; skbs and buffers are numbers.
* Driver loops are split into single turns, so a run may place DMA steps and other
  contexts between any two turns. Class methods perform a whole call; `DescLoop` also
  takes the hardware activity between its turns as a parameter.
* The DMA engine of the Synopsys model keeps its own position, stops at a descriptor it
  does not own and returns to the ring base after the end-of-ring bit. It may report any
  status; on transmit the control bits are left as they were.
* The Synopsys room check is outside the lock. `SynDevice` and the class admit one
  transmitter at a time; `SynTransmitters` admits any number, as the netdev has one transmit
  queue per CPU (nss_dp_main.c:39 and :602). Each EDMA xmit is one step, since the store is
  shared while the locks are per ring.
* EDMA hardware keeps the tag of a buffer, stays within the index range, takes only
  published buffers and reports each buffer at most once, in any order and on any ring.
* Allocation, mapping and switch-call results are parameters. Skb numbers are allocation
  identities: each answer of the allocator within a call is a new number, also where the
  kernel hands out memory again that was released earlier in the same poll. A caller
  transmits an skb that is not in the store. A failed switch call changes nothing.
* Counters are unbounded; the 64-bit counters of the driver hold their residues.

Where code and comments differ, the code is followed: `RollbackLosesEthertype` shows a
reachable state in which the "restore" of a failed STP disable does not restore, and
`DisableRollbackIff` gives the exact condition under which it does. A receive budget of
zero or less still lets `syn_dp_rx` take one frame, and `Receive` says so. The emptiness
test of a descriptor looks at the first size field only, although its comment names both.
Two transmitters can pass the Synopsys room check for one last descriptor; the second
then fails a BUG_ON (`TwoTransmittersCollide`), and `CheckSufficesIff` says when it cannot
happen. The RXFILL rings index one shared store by their own producer index, so the first refill
gives 127 buffers to the first ring and none to any other (`ConfigureRings`).

## Model

| member | source | states |
|---|---|---|
| `RingIndex.MaskStepPow2` | hal/syn_gmac_dp/syn_dp_tx_rx.c:41-42 | for every power-of-two ring size, `(i + 1) & (count - 1)` is the successor with wrap-around |
| `RingIndex.MaskStep` | hal/syn_gmac_dp/syn_dp_tx_rx.c:100-101 | the same for the 128-slot rings of the driver |
| `WordValue.ValueNext` | hal/syn_gmac_dp/syn_dp_tx_rx.c:185-190 | the value of a word, used for byte and collision counts, grows by one from each word to the next |
| `WordValue.ValueCut` | hal/syn_gmac_dp/syn_dp_tx_rx.c:265-272 | a length cut at 0x1FFF has its value cut at 8191 |
| `SynDmaDesc.PackExactIff` | hal/syn_gmac_dp/syn_dp_tx_rx.c:73-78 | the two size fields add up to the requested length exactly for lengths up to 2 * 0x1FFF; longer ones are truncated |
| `SynDmaDesc.ArmHandsOver` | hal/syn_gmac_dp/syn_dp_tx_rx.c:61-98 | arming an idle descriptor hands it to the DMA with the end-of-ring bit in place and the two sizes and addresses and, on transmit, the segment, interrupt and checksum control that were asked for; on receive the extended words are cleared |
| `SynDmaDesc.TxArmedWordBits` | hal/syn_gmac_dp/syn_dma_desc.h:266-269 | ownership, first- and last-segment, interrupt and checksum bits of an armed word are as requested; the end-of-ring bit is untouched |
| `SynDmaDesc.WriteBackReturns` | hal/syn_gmac_dp/syn_dma_desc.h:75-177 | write-back takes ownership away and keeps sizes, addresses, control and end-of-ring bits; the status reported is what the driver will read |
| `SynDmaDesc.WriteBackKeepsControl` | hal/syn_gmac_dp/syn_dma_desc.h:112-139 | on transmit every control bit survives a write-back |
| `SynDmaDesc.ClearReleases` | hal/syn_gmac_dp/syn_dp_tx_rx.c:45-49 | resetting a used descriptor leaves an idle one: everything clear but the end-of-ring bit, and no buffer address |
| `SynDmaDesc.IdleIsAvailable` | hal/syn_gmac_dp/syn_dma_desc.h:316-331 | an idle descriptor is empty and not owned by the DMA |
| `SlotRing.PostAppends` | hal/syn_gmac_dp/syn_dp_tx_rx.c:61-109 | on an index-free queue, handing over a slot appends; the slot used was free |
| `SlotRing.ReclaimPops` | hal/syn_gmac_dp/syn_dp_tx_rx.c:31-55 | reclaiming the oldest slot pops the front of the queue |
| `SlotRing.WriteBackCompletesOldest` | hal/syn_gmac_dp/syn_dp_tx_rx.c:168-171 | the DMA position is always the oldest slot it owns, so completion happens in order |
| `SlotRing.DmaIdleIffDrained` | hal/syn_gmac_dp/syn_dp_tx_rx.c:168-171 | the DMA finds work at its position exactly while the window holds a slot it has not given back |
| `SynDescRing.InitialRingInv` | hal/syn_gmac_dp/syn_dma_desc.h:275-291 | freshly initialised rings satisfy the ring invariant and are empty |
| `SynDescRing.EndOfRingOnlyLast` | hal/syn_gmac_dp/syn_dma_desc.h:286-291 | exactly the last descriptor carries the end-of-ring bit |
| `SynDescRing.SetQptrPosts` | hal/syn_gmac_dp/syn_dp_tx_rx.c:61-109 | under the invariant none of the four BUG_ONs fires, and setting a descriptor appends one DMA-owned item with the skb, sizes, addresses and control asked for |
| `SynDescRing.ResetQptrReclaims` | hal/syn_gmac_dp/syn_dp_tx_rx.c:31-55 | a head the DMA gave back holds an skb, and resetting it pops exactly that item |
| `SynDescRing.DmaStepCompletesOldest` | hal/syn_gmac_dp/syn_dma_desc.h:137-138 | a DMA engine that reads only descriptor words, wrapping at the end-of-ring bit, completes exactly the oldest owned slot |
| `SynFifo.RunKeepsInv` | hal/syn_gmac_dp/syn_dp_tx_rx.c:149-219 | every run of the reference queues keeps first-in-first-out order, in-order completion, capacity and the admitted room |
| `SynDevice.SetUp` | hal/syn_gmac_dp/syn_dp_cfg.c:26-101 | both descriptor queues as set up, before the first refill, satisfy the device invariant |
| `SynDevice.DevStep` | hal/syn_gmac_dp/syn_dp_tx_rx.c:31-425 | every driver turn and every DMA step keeps the device invariant |
| `SynDevice.RxReapRefines` | hal/syn_gmac_dp/syn_dp_tx_rx.c:166-217 | a receive-loop turn pops the queue and counts it; the skb is passed up with its payload length exactly when the frame is first and last segment without error, and freed otherwise |
| `SynDevice.TxReapRefines` | hal/syn_gmac_dp/syn_dp_tx_rx.c:339-387 | a completion-loop turn pops the queue, frees that very skb and counts it |
| `SynDevice.RunRefines` | hal/syn_gmac_dp/syn_dp_tx_rx.c:115-425 | from matching states every run of the device is a run of the two queues |
| `SynDevice.EveryRunIsFifo` | hal/syn_gmac_dp/syn_dp_tx_rx.c:115-425 | in every run from set-up, rings, outputs and counters are those of two FIFO queues |
| `SynStats.CountRxTallies` | hal/syn_gmac_dp/syn_dp_tx_rx.c:181-211 | one receive turn keeps every counter equal to the sum it is named after, stated on the status bits |
| `SynStats.CountTxTallies` | hal/syn_gmac_dp/syn_dp_tx_rx.c:350-384 | one completion turn keeps every counter equal to the sum it is named after, stated on the status bits |
| `SynStats.RxCountersConserve` | hal/syn_gmac_dp/syn_dp_tx_rx.c:189-210 | packets + errors is the number of descriptors taken back; each cause is bounded by the errors |
| `SynStats.TxCountersConserve` | hal/syn_gmac_dp/syn_dp_tx_rx.c:363-380 | the same for transmit |
| `SynStats.RxCausesNamed` | hal/syn_gmac_dp/syn_dp_tx_rx.c:203-210 | each receive error counter counts the status bit it is named after, among the frames in error |
| `SynStats.TxCausesNamed` | hal/syn_gmac_dp/syn_dp_tx_rx.c:363-375 | each transmit error counter counts the status bit it is named after, among the frames in error |
| `SynDrain.RxTurns` | hal/syn_gmac_dp/syn_dp_tx_rx.c:166-217 | n receive turns on a completed prefix of at least n take exactly the first n and append, in order, what their status bits call for |
| `SynDrain.TxTurns` | hal/syn_gmac_dp/syn_dp_tx_rx.c:339-387 | n completion turns take exactly the first n and free their skbs in order |
| `SynDrain.PollCompletesIff` | hal/syn_gmac_dp/syn_data_plane.c:46-55 | for budget > 0 the work reported is below the budget exactly when the ring was empty or the loop met a DMA-owned slot |
| `SynDrain.ReceiveTakes` | hal/syn_gmac_dp/syn_dp_tx_rx.c:157-218 | up to `budget` completed frames, or one for a budget of zero or less; what the value returned amounts to |
| `SynDrain.RefillTraceIs` | hal/syn_gmac_dp/syn_dp_tx_rx.c:115-143 | a refill hands over the mapped answers up to the room there is, in order, and ends at the first answer that is not mapped |
| `SynDrain.TxPartDrains` | hal/syn_gmac_dp/syn_dp_tx_rx.c:322-390 | the completion part of a poll frees the skbs of the whole completed prefix in order, leaves no completed descriptor and does not touch the receive ring |
| `SynDrain.RxPartDrains` | hal/syn_gmac_dp/syn_dp_tx_rx.c:157-218 | the receive part takes the completed prefix cut at the budget and appends its outcomes in order |
| `SynRuns.EveryRunDisciplined` | hal/syn_gmac_dp/syn_dp_tx_rx.c:31-316 | in every run: next == (busy + count) mod 128, cached pointers match, window slots hold one skb, other slots are empty, NULL and not DMA-owned, and ownership is a completed prefix then an owned suffix |
| `SynRuns.EveryRunMarksRingEnd` | hal/syn_gmac_dp/syn_dma_desc.h:275-291 | in every run exactly the last descriptor of each ring carries its end-of-ring bit |
| `SynRuns.EveryRunBugFree` | hal/syn_gmac_dp/syn_dp_tx_rx.c:40-71 | in every run no ring BUG_ON can fire on refill, enqueue or release |
| `SynRuns.EveryRunRxInOrder` | hal/syn_gmac_dp/syn_dp_tx_rx.c:61-219 | skbs handed to the receive ring leave it in that order, each once; the rest is in the ring |
| `SynRuns.EveryRunTxInOrder` | hal/syn_gmac_dp/syn_dp_tx_rx.c:252-390 | transmitted skbs are freed in the order of enqueueing, each once; the rest is in the ring |
| `SynRuns.EveryRunConservesRx` | hal/syn_gmac_dp/syn_dp_tx_rx.c:115-219 | allocated = in ring + passed up + freed, as multisets, at every reachable state |
| `SynRuns.EveryRunRxAddresses` | hal/syn_gmac_dp/syn_dp_tx_rx.c:73-98 | in every run the descriptor of each buffer the receive DMA holds names the address mapped for it and 1978 bytes |
| `SynRuns.EveryRunTxAddresses` | hal/syn_gmac_dp/syn_dp_tx_rx.c:265-294 | in every run the descriptor of each request the transmit DMA holds names its address, its length over one or two buffers, and its segment, interrupt and checksum control |
| `SynRuns.EveryRunOutcomesCounted` | hal/syn_gmac_dp/syn_dp_tx_rx.c:181-210 | in every run rx_packets, rx_bytes and rx_errors are the number and bytes of the frames passed up and the number of frames freed |
| `SynRuns.EveryRunSentBytes` | hal/syn_gmac_dp/syn_dp_tx_rx.c:336-380 | in every run tx_bytes is the sum of the lengths of the requests completed without error, each cut at 8191 |
| `SynRuns.EveryRunCounts` | hal/syn_gmac_dp/syn_dp_tx_rx.c:181-216 | over every run the counters are exact sums over the reclaimed descriptors, and each reclaimed descriptor is what was asked for at its place |
| `SynRuns.AdmissionKeepsRoom` | hal/syn_gmac_dp/syn_dp_tx_rx.c:406-420 | after the unlocked room check the room stays until the own enqueue, whatever steps fall in between |
| `SynRuns.QuietHands` | hal/syn_gmac_dp/syn_dp_tx_rx.c:149-390 | no step but a refill or an enqueue hands anything to either DMA |
| `SynTransmitters.FindsSlotIff` | hal/syn_gmac_dp/syn_dp_tx_rx.c:252-265 | the locked enqueue finds an unused descriptor exactly while the ring is not full |
| `SynTransmitters.FullRingBugsIff` | hal/syn_gmac_dp/syn_dp_tx_rx.c:260-263 | at a full ring a BUG_ON fires, except when the oldest descriptor is completed and was sent with no bytes in its first buffer |
| `SynTransmitters.EveryPortRunIsDevRun` | hal/syn_gmac_dp/syn_dp_tx_rx.c:305-425 | with any number of transmitters between check and enqueue, a run that breaks nothing is a run of the device, so all statements about runs hold of it |
| `SynTransmitters.SafeIffRoom` | hal/syn_gmac_dp/syn_dp_tx_rx.c:396-425 | no continuation without a further room check can break exactly while busy count plus waiting requests is at most 128 |
| `SynTransmitters.CheckSufficesIff` | hal/syn_gmac_dp/syn_dp_tx_rx.c:406-409 | the unlocked check suffices exactly when it refuses or when those already waiting leave a slot over |
| `SynTransmitters.CheckedRunsAreSafe` | hal/syn_gmac_dp/syn_dp_tx_rx.c:406-425 | a run in which every check is made at such a moment never breaks |
| `SynTransmitters.OneAtATimeIsSafe` | hal/syn_gmac_dp/syn_dp_tx_rx.c:396-425 | one transmitter at a time never breaks |
| `SynTransmitters.TwoTransmittersCollide` | hal/syn_gmac_dp/syn_dp_tx_rx.c:260-263 | a run from set-up: with 127 descriptors busy two transmitters both pass the check, and the second enqueue fails a BUG_ON |
| `SynDataPlane.DpInfo.constructor` | hal/syn_gmac_dp/syn_dp_cfg.c:26-101 | set-up of both rings gives the initial device |
| `SynDataPlane.SetupRings` | hal/syn_gmac_dp/syn_dp_cfg.c:107-130 | both queues, then the first refill: the device is reached from set-up by the refill turns the allocator answers allow; everything is newly allocated, interrupts are on, nothing is scheduled or pending, so every routine may be called |
| `SynDataPlane.DpInfo.ResetRxQptr` | hal/syn_gmac_dp/syn_dp_tx_rx.c:31-55 | in place: the ring becomes the reset ring, the other ring is untouched |
| `SynDataPlane.DpInfo.SetRxQptr` | hal/syn_gmac_dp/syn_dp_tx_rx.c:61-109 | in place: the ring becomes the set ring; the four BUG_ONs are asserted |
| `SynDataPlane.DpInfo.RxRefill` | hal/syn_gmac_dp/syn_dp_tx_rx.c:115-143 | exactly the refill turns the allocator and mapping answers allow, put on record; the mapped skbs are handed to the receive DMA in order |
| `SynDataPlane.DpInfo.RxAccount` | hal/syn_gmac_dp/syn_dp_tx_rx.c:181-213 | counters and outcome of one received frame, the outcome stated on the status bits |
| `SynDataPlane.DpInfo.RxOne` | hal/syn_gmac_dp/syn_dp_tx_rx.c:167-216 | one receive turn is the device step |
| `SynDataPlane.DpInfo.Receive` | hal/syn_gmac_dp/syn_dp_tx_rx.c:149-219 | for every budget: which frames are removed, the value returned, and that nothing is handed to either DMA |
| `SynDataPlane.DpInfo.ResetTxQptr` | hal/syn_gmac_dp/syn_dp_tx_rx.c:225-246 | in place: the ring becomes the reset ring |
| `SynDataPlane.DpInfo.SetTxQptr` | hal/syn_gmac_dp/syn_dp_tx_rx.c:252-299 | in place: the ring becomes the set ring; the four BUG_ONs are asserted |
| `SynDataPlane.DpInfo.AdmitTx` | hal/syn_gmac_dp/syn_dp_tx_rx.c:406-415 | the unlocked room check admits exactly below 128 busy descriptors |
| `SynDataPlane.DpInfo.QueueTx` | hal/syn_gmac_dp/syn_dp_tx_rx.c:305-316 | the locked enqueue of an admitted request is the device step and hands that request to the transmit DMA |
| `SynDataPlane.DpInfo.Transmit` | hal/syn_gmac_dp/syn_dp_tx_rx.c:396-425 | 0 exactly with room and a mapping, then the call is the admit and commit steps of the device, the request is the next one handed to the transmit DMA and the skb is last in the window; otherwise -1 and nothing changed |
| `SynDataPlane.DpInfo.TxAccount` | hal/syn_gmac_dp/syn_dp_tx_rx.c:350-384 | skb release and counters of one completed descriptor |
| `SynDataPlane.DpInfo.TxCompleteOne` | hal/syn_gmac_dp/syn_dp_tx_rx.c:340-386 | one completion turn is the device step |
| `SynDataPlane.DpInfo.ProcessTxComplete` | hal/syn_gmac_dp/syn_dp_tx_rx.c:322-390 | takes back the whole completed prefix and nothing else |
| `SynDataPlane.DpInfo.StepRxDma` | hal/syn_gmac_dp/syn_dma_desc.h:76-77 | a write-back on descriptor memory is the DMA step of the device |
| `SynDataPlane.DpInfo.HandleIrq` | hal/syn_gmac_dp/syn_data_plane.c:62-76 | DMA status cleared, interrupt off, poll scheduled; never both wake-ups, never none |
| `SynDataPlane.DpInfo.NapiPoll` | hal/syn_gmac_dp/syn_data_plane.c:32-56 | the poll is one run: completion turns, receive turns within the budget, refill turns; it hands the skbs its refill could map to the receive DMA and nothing to the transmit DMA; interrupts come back exactly when the receive ring ran dry |
| `SynDataPlane.DpInfo.KeepsOrder` | hal/syn_gmac_dp/syn_dp_tx_rx.c:61-390 | after any sequence of calls and DMA steps on the object: the skbs handed to either ring are those that left it, in order, followed by those in the ring |
| `SynDataPlane.DpInfo.Conserves` | hal/syn_gmac_dp/syn_dp_tx_rx.c:115-219 | after any sequence of calls and DMA steps: allocated = in ring + passed up + freed |
| `SynDataPlane.DpInfo.Counts` | hal/syn_gmac_dp/syn_dp_tx_rx.c:181-211 | after any sequence of calls and DMA steps the counters are exact sums over the descriptors taken back, rx counters agree with the frames passed up and freed, and tx_bytes with the requests completed |
| `EdmaPipe.HeadNamesItsSkb` | hal/edma/edma_tx_rx.c:312-319 | under the invariant the opaque word of the next report names the slot holding the very skb it is about; the empty-slot warning is unreachable |
| `EdmaPipe.PostKeepsInv` | hal/edma/edma_tx_rx.c:85-114 | posting into a free slot keeps the invariant: no buffer outstanding twice, outstanding tags are exactly the occupied slots |
| `EdmaPipe.SpoilKeepsInv` | hal/edma/edma_tx_rx.c:106-110 | a failed mapping keeps the invariant and leaves store, windows and outstanding buffers as they were |
| `EdmaPipe.ReapKeepsInv` | hal/edma/edma_tx_rx.c:174-176 | taking a report removes exactly its buffer from store and outstanding buffers |
| `EdmaPipe.RunKeepsInv` | hal/edma/edma_tx_rx.c:31-648 | the invariant holds along every run of posts, register accesses, hardware steps and reaps |
| `EdmaRx.RxStepKeeps` | hal/edma/edma_tx_rx.c:282-415 | every refill turn, receive turn and hardware step keeps the receive invariant, through all outcomes of the loop |
| `EdmaRx.RxRunKeeps` | hal/edma/edma_tx_rx.c:31-426 | the receive invariant holds along every run |
| `EdmaRx.RxRunIsPipeRun` | hal/edma/edma_tx_rx.c:31-426 | every receive run is a run of the shared buffer circuit: a refill turn is a post or a failed post, a receive turn a reap |
| `EdmaRx.FillPosts` | hal/edma/edma_tx_rx.c:66-114 | a successful refill turn appends its buffer to the ring and fills one store slot |
| `EdmaRx.HardwareFrame` | hal/edma/edma_tx_rx.c:286-291 | hardware steps only consume posted buffers and append reports |
| `EdmaRx.ClassifyDecides` | hal/edma/edma_tx_rx.c:321-367 | the checks of the receive loop pass a frame up exactly when its source information is a port whose netdev exists and is running |
| `EdmaRx.TurnDisposes` | hal/edma/edma_tx_rx.c:321-402 | a receive turn passes its skb up with port, length and PTP choice exactly then, and frees it otherwise |
| `EdmaTx.XmitKeepsInv` | hal/edma/edma_tx_rx.c:520-648 | each branch of xmit keeps the invariant |
| `EdmaTx.XmitRefusesIff` | hal/edma/edma_tx_rx.c:556-589 | xmit refuses exactly at 127 posted buffers or when its store slot is occupied |
| `EdmaTx.XmitPosts` | hal/edma/edma_tx_rx.c:591-647 | an accepted skb is posted last, its tag names its slot and the register is published |
| `EdmaTx.XmitFrees` | hal/edma/edma_tx_rx.c:606-616 | an skb that is accepted but cannot be mapped is freed; ring, index register and store are as before |
| `EdmaTx.XmitRefusalKeeps` | hal/edma/edma_tx_rx.c:556-589 | a refused skb leaves ring and store as before and is not freed |
| `EdmaTx.TxRunKeeps` | hal/edma/edma_tx_rx.c:139-648 | the transmit invariant holds along every run |
| `EdmaTx.TxRunIsPipeRun` | hal/edma/edma_tx_rx.c:139-648 | every transmit run is a run of the shared buffer circuit, each xmit branch as up to three of its steps |
| `EdmaRuns.StartInv` | hal/edma/edma_cfg.c:678-681 | empty stores and zero indices satisfy the invariant, for any number of rings |
| `EdmaRuns.RxEveryRunConserves` | hal/edma/edma_tx_rx.c:55-114 | in every run allocated = outstanding + delivered + dropped + wasted, tags match the store, and no report misses its skb |
| `EdmaRuns.RxEveryRunOnce` | hal/edma/edma_tx_rx.c:282-415 | each skb is delivered or freed at most once and never while outstanding |
| `EdmaRuns.TxEveryRunMatches` | hal/edma/edma_tx_rx.c:585-616 | over any number of rings sharing the store, outstanding tags are duplicate-free and exactly the occupied slots |
| `EdmaRuns.TxEveryCompletionMatches` | hal/edma/edma_tx_rx.c:174-192 | each completion yields the very skb whose xmit wrote its tag |
| `EdmaRuns.RxReachedConserves` | hal/edma/edma_tx_rx.c:260-426 | conservation in every state the receive routines can bring about |
| `EdmaRuns.TxReachedMatches` | hal/edma/edma_tx_rx.c:520-616 | store and outstanding tags match in every state the transmit routines can bring about |
| `EdmaRuns.RxEveryRunFits` | hal/edma/edma_tx_rx.c:84-89 | in every run the buffers posted, in flight and unread over all receive rings together are as many as the occupied store slots, at most 128 |
| `EdmaRuns.TxEveryRunFits` | hal/edma/edma_tx_rx.c:585-589 | the same for all transmit rings together |
| `EdmaRuns.SlotKeptUntilReaped` | hal/edma/edma_tx_rx.c:84-89 | one step empties an occupied slot exactly when it reads the report about the skb in it, and otherwise leaves the skb there |
| `EdmaRuns.RxEveryRunKeepsSlots` | hal/edma/edma_tx_rx.c:84-89 | from any state of any receive run on, an occupied slot keeps its skb or that skb is among those the receive loop has taken out since |
| `EdmaRuns.TxEveryRunKeepsSlots` | hal/edma/edma_tx_rx.c:585-589 | the same of transmit, over all rings sharing the store |
| `EdmaDataPlane.EdmaHw.constructor` | hal/edma/edma_cfg.c:678-681 | store initialisation gives the start state of both directions, with one mask register per ring, all disabled |
| `EdmaDataPlane.ConfigureRings` | hal/edma/edma_cfg.c:671-706 | after store initialisation and the first refill every routine may be called: stores newly allocated, ring counts as asked, one mask register per ring and all disabled, indices at rest, transmit side at its start; what each fill ring got, and with an allocator that never fails: 127 buffers in the first fill ring, none in any other, because the store is shared |
| `EdmaDataPlane.EdmaHw.FillOne` | hal/edma/edma_tx_rx.c:66-113 | one refill turn, each branch |
| `EdmaDataPlane.EdmaHw.AllocRxBuffer` | hal/edma/edma_tx_rx.c:31-133 | posts exactly the number of buffers the loop allows (`EdmaRefill.Turns`), the allocator's skbs in order, each mapped and in a slot that was free; which skbs were obtained and which of them freed; publishes old + num mod 128; says why it stopped |
| `EdmaDataPlane.EdmaHw.FillAll` | hal/edma/edma_tx_rx.c:453-456 | every fill ring in turn is refilled as by `AllocRxBuffer`, each from the store the one before left; the buffers posted add up to the counts returned |
| `EdmaDataPlane.FirstRingTakesAll` | hal/edma/edma_tx_rx.c:84-89 | a first refill of empty rings with an allocator that never fails: 127 buffers for ring 0, and every other ring finds slot 0 of the store occupied |
| `EdmaDataPlane.EdmaHw.DescOne` | hal/edma/edma_tx_rx.c:296-414 | one receive turn, each outcome |
| `EdmaDataPlane.EdmaHw.DescLoop` | hal/edma/edma_tx_rx.c:282-415 | takes reports in ring order while hardware runs, one skb each, and passes up or frees each as its source information and the state of the netdev call for; which of the two breaks ended it |
| `EdmaDataPlane.EdmaHw.CleanRx` | hal/edma/edma_tx_rx.c:260-426 | reap, refill and publish: the reports taken in ring order with the outcome of each, the state the loop ended in (at the producer index, or allowance used up), and from there exactly the refill of the own fill ring and the publication of the consumer index |
| `EdmaDataPlane.EdmaHw.RingXmit` | hal/edma/edma_tx_rx.c:520-648 | xmit in place is the atomic step; same result code |
| `EdmaDataPlane.EdmaHw.CompleteOne` | hal/edma/edma_tx_rx.c:166-198 | one completion turn |
| `EdmaDataPlane.EdmaHw.CleanTx` | hal/edma/edma_tx_rx.c:139-214 | consumes exactly (prod - cons) mod 128 completions, frees exactly their skbs in ring order and only empties store slots |
| `EdmaDataPlane.EdmaHw.CleanAllRx` | hal/edma/edma_tx_rx.c:443-446 | ring by ring a trail of states: what each loop took and how it ended, and what each refill posted; the skbs taken add up to the work of all rings, and those passed up and freed are the outcomes of all reports taken, in order |
| `EdmaDataPlane.BelowBudgetDrained` | hal/edma/edma_tx_rx.c:282-294 | a ring cut by the budget makes the total reach the budget, so a total below it means that every loop saw its consumer index at the producer index |
| `EdmaDataPlane.EdmaHw.HandleIrq` | hal/edma/edma_tx_rx.c:684-773 | the mask of every ring is disabled whatever the status; a poll is scheduled exactly when the status word of some ring reports |
| `EdmaDataPlane.EdmaHw.ArmedLetsThrough` | hal/edma/edma_cfg.c:751-755 | armed masks let through every bit the handler looks for on TXCMPL and RXFILL rings, and on RXDESC rings exactly the packet bit |
| `EdmaDataPlane.EdmaHw.MasksExclude` | hal/edma/edma_regs.h:361-364 | with any ring at all, armed masks are not disabled masks |
| `EdmaDataPlane.EdmaHw.Napi` | hal/edma/edma_tx_rx.c:432-514 | work is exactly reports taken + completions freed + buffers posted by the final refill; skbs are passed up and freed as the checks on each report say; the masks of all rings are re-armed or none, and only when every RXDESC loop ended at its producer index; with idle hardware no report is then left unread |
| `EdmaDataPlane.PollStocked` | hal/edma/edma_tx_rx.c:432-456 | after a poll the store holds only skbs it held before and answers of the allocator, so that polls can follow one another |
| `EdmaRefill.Refill` | hal/edma/edma_tx_rx.c:43-114 | for any register values the refill loop ends, posting exactly `Turns` buffers (the function `AllocRxBuffer` is specified by), claiming only free slots, consecutive from the producer index, at most as many as were free |
| `EdmaTeardown.CleanupFillRing` | hal/edma/edma_cfg.c:56-81 | the walk ends and frees the skb behind each posted buffer |
| `EdmaTeardown.CleanupDescRing` | hal/edma/edma_cfg.c:167-185 | the walk ends and frees the skb behind each unread report |
| `EdmaTeardown.CleanupRx` | hal/edma/edma_cfg.c:525-532 | on a quiesced device all stored skbs are freed, each once, and the store is left NULL |
| `EdmaTeardown.CleanupAfterRun` | hal/edma/edma_cfg.c:525-532 | after any run, every skb ever allocated is accounted for as delivered, freed on the way, or freed by the tear-down |
| `EdmaMap.PackField` | hal/edma/edma_cfg.c:832-834 | ORing one 3-bit field sets it and disturbs no other |
| `EdmaMap.FieldPlace` | hal/edma/edma_cfg.c:820-834 | the field of ring i is the three bits from 3 * (i % 10) on in register i / 10 |
| `EdmaMap.SetupRxRings` | hal/edma/edma_cfg.c:382-423 | ring ids, and the fill ring each RXDESC ring points to |
| `EdmaMap.ProgramRxMap` | hal/edma/edma_cfg.c:867-884 | every RXDESC field of the registers reads back as the id of the software pointer's fill ring, cut to 3 bits; all other fields are 0 |
| `EdmaMap.RxFieldNamesIff` | hal/edma/edma_cfg.c:867-884 | a programmed field reads as the id of the fill ring of its RXDESC ring modulo 8, which names that ring exactly when the id is below 8 |
| `EdmaMap.InitRxMap` | hal/edma/edma_cfg.c:867-884 | set-up and programming together: hardware and software name the same fill ring exactly when its id is below 8 |
| `EdmaMap.ProgramTxMap` | hal/edma/edma_cfg.c:810-839 | every TXDESC field reads back as its completion ring in turn, cut to 3 bits; all other fields are 0 |
| `EdmaMap.TxFieldNamesIff` | hal/edma/edma_cfg.c:820-839 | the field reads as start + (position modulo ring count), modulo 8, which names that completion ring exactly when its id is below 8 |
| `SlowProto.EveryRunKeeps` | nss_dp_switchdev.c:63-113 | under any pattern of failing calls and across probes: a nonzero bitmap implies the ethertype filter is set and every port in it has its profile |
| `SlowProto.DisableRollbackIff` | nss_dp_switchdev.c:160-171 | a failed disable restores everything exactly under the stated prior state |
| `SlowProto.ForwardRollbackIff` | nss_dp_switchdev.c:160-171 | a failed forward restores everything exactly when the port was in the bitmap |
| `SlowProto.CalmRunRollsBackIff` | nss_dp_switchdev.c:160-171 | after any run without failing filter calls and probes, a failed disable restores everything exactly when the filter of the port was off, a failed forward exactly when it was on |
| `SlowProto.CalmRunFilter` | nss_dp_switchdev.c:120-175 | after any run without failing filter calls and probes, bitmap, profile and ethertype are what the last disable or forward request for each port asked for |
| `SlowProto.ForwardRemoves` | nss_dp_switchdev.c:147-153 | a successful forward takes the port, and no other, out of bitmap and profiles from any state, and clears the ethertype with the last port |
| `SlowProto.DisableInstalls` | nss_dp_switchdev.c:126-135 | a successful disable puts the port, and no other, into bitmap and profiles from any state, and sets the ethertype with the first port |
| `SlowProto.EnableIff` | nss_dp_switchdev.c:63-92 | enabling sets the bit exactly when the profile could be added and the ethertype was or could be set; a failure leaves bitmap and ethertype, and the profile only if it could not be deleted |
| `SlowProto.DisableIff` | nss_dp_switchdev.c:93-113 | disabling takes the port out exactly when its profile could be deleted |
| `SlowProto.RollbackLosesEthertype` | nss_dp_switchdev.c:103-112 | a reachable state in which the rollback clears the ethertype register under another port's profile |
| `SlowProto.SwitchCtx.SetSlowProtoFilter` | nss_dp_switchdev.c:36-114 | in place: bitmap, profiles and ethertype after each pattern of call results |
| `SlowProto.SwitchCtx.StpStateSet` | nss_dp_switchdev.c:120-175 | in place: state change with rollback; 0 exactly for a known state whose STP call succeeds, and the STP state changes exactly then; -EOPNOTSUPP and -EINVAL otherwise; invariant kept |
| `SlowProto.SwitchCtx.Probed` | nss_dp_main.c:718 | a probe clears the bitmap and nothing else |
| `EeeModes.FalToEthtool` | nss_dp_ethtools.c:183-219 | the loop ends with the source mask 0 and the destination extended by exactly the translated modes |
| `EeeModes.FalTable` | nss_dp_ethtools.c:187-214 | each FAL link mode and the ethtool bit it becomes |
| `EeeModes.EthTable` | nss_dp_ethtools.c:286-330 | each ethtool bit and the FAL link mode it becomes |
| `EeeModes.GetEee` | nss_dp_ethtools.c:225-252 | the three masks and flags delivered, or -EIO and nothing changed |
| `EeeModes.Advertise` | nss_dp_ethtools.c:283-337 | the loop succeeds exactly when every advertised bit is a known mode the switch is capable of |
| `EeeModes.SetEee` | nss_dp_ethtools.c:258-348 | result code, what is sent to the switch, and the mask the caller is left with |
| `EeeModes.SetThenGet` | nss_dp_ethtools.c:283-337 | what was set, translated back, is the mask that was asked for |
| `EeeModes.SettableIffReported` | nss_dp_ethtools.c:183-219 | the masks that can be set are the submasks of the reported supported mask |
| `EeeModes.AdvertisesWithin` | nss_dp_ethtools.c:283-337 | the switch is never told to advertise beyond its capability |

## Left out

- `syn_dp_cleanup_rings`: its loops never advance the index, so "frees everything" is not a property of it.
- `edma_cleanup_txdesc_ring_res`: steps its index twice per turn and uses a DMA address as a store index.
- Allocation failure and unwinding in ring set-up (`while (i-- >= 0)` reaches index -1); set-up is modelled as succeeding.
- Choice of the TX ring from the skb queue number; the ring is a parameter.
- Who owns the skb at the netdev return code, queue stop and start, and the preheader left on a refused skb.
- The rx_missed update of the Synopsys poll, which is made on the record of port 0.
- Staying within the budget in `edma_napi`: the total may exceed it, and the source marks budget control as unfinished.
- The second bit of the RXDESC interrupt mask, whose header name is a timer disable bit; `ArmedLetsThrough` speaks of the mask as a set of enabled bits.
- "Masked implies a poll is scheduled" for EDMA: false after a spurious interrupt; `HandleIrq` states what does hold.
- Memory barriers, cache maintenance and address mapping beyond success or failure.
- Probe and remove, device tree, PHY, clocks, statistics tables and register setters: plumbing or easy members.
- EdmaDataPlane.EdmaHw.AllocRxBuffer: hardware steps inside one refill call are not interleaved in the method; the runs of EdmaRx interleave them.
- EdmaDataPlane.EdmaHw.RingXmit: preheader fields other than the tag, and timestamping, are not modelled.
- EdmaDataPlane.EdmaHw.DescOne: the skb fields set before delivery are reduced to port, length and the PTP choice.
