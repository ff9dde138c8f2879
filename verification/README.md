# dwc_eqos device core in Dafny

A model of the control core of the Rockchip DesignWare Ethernet QoS
(`dwc_eqos`) network driver, `drivers/net/dwc_eqos/device.cpp`:

- the **interrupt-subscription state machine**: the wanted-interrupt mask,
  the receive/transmit notification slots and the coalesced interrupt status
  word, with the locked enable/disable operations, queue registration, the
  interrupt service routine, one iteration of the deferred procedure call
  and the power-up/power-down transitions (`device_state.dfy`,
  `interrupt_pipeline.dfy`);
- the invariant those steps keep under any interleaving, and the deferred
  procedure call's drain loop proved against it (`device_invariants.dfy`),
  stated over an event history of registrations, notifications, link
  reports and the two atomic operations on the status word
  (`event_log.dfy`);
- the pure decisions: the two interrupt-enable encoders
  (`interrupt_mask.dfy`), the link-speed decoding and MAC-configuration
  update (`link_state.dfy`), station-address resolution and its fixups
  (`mac_address.dfy`), resource selection, the bounded software-reset poll,
  the version gate, the DMA address-width mapping, the FIFO queue-size
  formula and the bring-up error order (`hardware_setup.dfy`), and the
  receive-filter slot assignment with its multicast capacity
  (`receive_filter.dfy`).

The device is an immutable record; every operation is a pure function from
one state to the next. Register writes are kept as an ordered log
(`Registers.RegWrite`), so "the registers are written only when the mask
changes" and "the enable registers hold the encoding of the mask" are
statements about that log. The handler, the deferred processor and the
caller threads are interleavable steps (`DeviceInvariants.Step`): a queue
registration; one handler run, whose only effect on shared memory is its
interlocked OR; the deferred processor's interlocked exchange, its unlocked
error counting and link refresh, and its locked disable-and-notify section,
as three separate steps; the unlocked configuration and link refresh of
power-up and its locked State enable; the locked disable of power-down and
its receiver/transmitter switch-off. The two deferred-processor steps after
the exchange accept any status word, so registrations and handler runs may
fall between the exchange and the lock, as in the driver.
Hardware reads (PHY status, interrupt status, the reset bit, the permanent
address and feature registers) and the random bytes are parameters.

The register header of the driver is not part of this model. Bit positions
of the status and enable words follow the Synopsys DesignWare Ethernet QoS
register layout: channel Tx = bit 0, Rx = bit 6, fatal bus error = bit 12,
abnormal summary = bit 14, normal summary = bit 15; MAC link-status event =
bit 0; DMA software reset = bit 0. Registers the driver handles field by
field (MAC configuration, PHY interface status, version, feature words,
packet filter, address slots) are records of those fields.

Points of the code worth stating plainly:

- Bring-up resets the device last, after the address, version and
  address-width steps, and programs the chosen current address into slot 0
  as part of the reset (`HardwareSetup.PrepareHardware`).
- The version gate is two separate tests: the core release (`RkVer`) must
  be at least 0x51 and the integrator version (`UserVer`) at most 0x52.
- Three PHY speed codes are mapped; any other code takes the default branch
  (speed 0, port select unchanged).
- Power-up reads the channel status once, but that read does not clear
  anything (channel status is cleared by writing it back), so the model has
  no step for it.
- The all-zero/all-ones test on the permanent address runs before the group
  bit is cleared, so in the driver the permanent address 01:00:00:00:00:00
  becomes the all-zero current address. The model's bring-up uses the
  corrected fix-up instead; see "Findings" and "Left out".

## Model

| member | source | states |
|---|---|---|
| InterruptMask.MakeMacInterruptEnable | drivers/net/dwc_eqos/device.cpp:190-198 | the link-status enable is on exactly when the State class is wanted, and no other bit is set |
| InterruptMask.MakeChannelInterruptEnable | drivers/net/dwc_eqos/device.cpp:201-213 | normal summary is always on; Rx and Tx follow their classes; fatal bus error and abnormal summary both follow State; no bit outside those five |
| InterruptMask.EnablesRoundTrip | drivers/net/dwc_eqos/device.cpp:190-213 | decoding the two programmed words gives back exactly the known classes of the wanted mask, so masks differing in a known class never program the same registers |
| InterruptMask.EnablesIgnoreUnknownBits | drivers/net/dwc_eqos/device.cpp:190-213 | bits outside State, Rx and Tx never change what is programmed |
| DeviceState.InterruptEnable | drivers/net/dwc_eqos/device.cpp:217-231 | new mask = old OR bits; if it changed, the two enable registers are written with its encodings; if not, the device is returned identical (no write, log untouched); nothing else changes |
| DeviceState.InterruptDisable | drivers/net/dwc_eqos/device.cpp:245-259 | new mask = old AND NOT bits; if it changed, the two enable registers are written with its encodings; if not, the device is returned identical (no write, log untouched); nothing else changes |
| DeviceState.EnableIdempotent | drivers/net/dwc_eqos/device.cpp:217-231 | a repeated enable changes neither the mask nor the write log |
| DeviceState.DisableIdempotent | drivers/net/dwc_eqos/device.cpp:245-259 | a repeated disable changes neither the mask nor the write log |
| DeviceState.DisableAllClears | drivers/net/dwc_eqos/device.cpp:526 | disabling All leaves no bit wanted |
| DeviceState.LastWriteOfEnables | drivers/net/dwc_eqos/device.cpp:225-226 | after a mask change both enable registers hold the encoding of the new mask |
| DeviceState.MaskOpsFold | drivers/net/dwc_eqos/device.cpp:217-259 | for any sequence of enables and disables, the mask is the OR/AND-NOT fold, the write count is twice the number of requests that changed the mask, and the enable registers hold the encoding of the final mask |
| DeviceState.SetNotificationQueue | drivers/net/dwc_eqos/device.cpp:946-989 | the slot holds the new queue; the direction's class is wanted iff a queue is registered; the other class bits and the other slot are unchanged; the two enable registers are written iff the mask changed, and nothing else is written |
| DeviceState.RegisterThenClear | drivers/net/dwc_eqos/device.cpp:946-989 | register then clear leaves the direction's class off and its slot empty, and the rest of the subscription state as before |
| InterruptPipeline.IsrBits | drivers/net/dwc_eqos/device.cpp:295-297 | the ORed bits contain the link flag when a link event was seen; without one they are the channel status exactly; they never hold a bit outside the channel status and the link flag; they are zero only when nothing was seen |
| InterruptPipeline.IsrBitsKeepChannelStatus | drivers/net/dwc_eqos/device.cpp:295-297 | every channel status bit read reaches the ORed bits |
| InterruptPipeline.IsrAcknowledge | drivers/net/dwc_eqos/device.cpp:289-293 | the channel status is written back to clear it exactly when it was nonzero |
| InterruptPipeline.InterruptIsr | drivers/net/dwc_eqos/device.cpp:281-305 | handled iff a link event or nonzero channel status; a handled interrupt ORs its bits into the status word (keeping what was pending), acknowledges and counts a hit; otherwise only the ignored counter moves; the subscription state is never touched |
| InterruptPipeline.RefreshLink | drivers/net/dwc_eqos/device.cpp:139-181 | the configuration becomes the refreshed one, is written only if it changed, and the link is reported |
| InterruptPipeline.RxTxClasses | drivers/net/dwc_eqos/device.cpp:349-351 | the Rx and Tx classes are selected exactly when the status reports them, and no other class is |
| InterruptPipeline.NotifyQueue | drivers/net/dwc_eqos/device.cpp:356-368 | a reported direction with a registered queue logs one notification to that queue and empties the slot; otherwise nothing changes; the other slot is untouched |
| InterruptPipeline.CountErrors | drivers/net/dwc_eqos/device.cpp:327-334 | the abnormal-summary and fatal-bus-error counters each grow by their flag's 0/1 value; no other counter and nothing else changes |
| InterruptPipeline.HandleLink | drivers/net/dwc_eqos/device.cpp:341-345 | without the link flag nothing changes; with it the link counter grows by one, the configuration becomes the refreshed one and one link report is logged |
| InterruptPipeline.MaskAndNotify | drivers/net/dwc_eqos/device.cpp:348-370 | a reported direction ends disabled with its slot empty; an unreported one keeps class and slot; State is untouched and nothing gets enabled |
| InterruptPipeline.MaskAndNotifyWritesEnables | drivers/net/dwc_eqos/device.cpp:348-351 | the locked section writes the two enable registers iff the mask changed, with the new mask's encoding, and writes nothing else |
| InterruptPipeline.MaskAndNotifyLogsOwed | drivers/net/dwc_eqos/device.cpp:348-370 | the events appended are exactly the owed notifications, Rx before Tx, each to the queue registered before the call and only for a reported direction |
| InterruptPipeline.MaskAndNotifyCountsOwed | drivers/net/dwc_eqos/device.cpp:356-366 | dpcRx (dpcTx) grows by one exactly when the Rx (Tx) direction is reported and has a queue registered; no other counter moves |
| InterruptPipeline.ProcessStatus | drivers/net/dwc_eqos/device.cpp:327-370 | a nonzero status disables and empties each reported direction, keeps the others and State, and refreshes the configuration exactly when the link flag is set |
| InterruptPipeline.ExchangeStatus | drivers/net/dwc_eqos/device.cpp:321 | the exchange leaves the word zero and logs one exchange of exactly the old word; nothing else changes |
| InterruptPipeline.DpcIteration | drivers/net/dwc_eqos/device.cpp:319-325 | the exchange takes the whole word and leaves it zero; the loop continues exactly when the taken word was nonzero; a zero word changes nothing but the log |
| InterruptPipeline.DpcNotifiesReportedQueues | drivers/net/dwc_eqos/device.cpp:321-370 | one iteration appends exactly: the exchange of the old word, a link report iff the word has the link flag, then the owed notifications to the queues registered before the iteration; each reported direction is left disarmed until the next registration |
| InterruptPipeline.ConfigureForPowerUp | drivers/net/dwc_eqos/device.cpp:497-505 | the power-up configuration is written, then the refreshed one only if the link changes it; one link report is logged; mask, queues, status word and counters are untouched |
| InterruptPipeline.PowerUp | drivers/net/dwc_eqos/device.cpp:491-507 | receiver and transmitter end up on with duplex and speed from the refresh; State is enabled; queues and status word untouched |
| InterruptPipeline.DisableMac | drivers/net/dwc_eqos/device.cpp:531-534 | receiver and transmitter are off, every other configuration field is kept, and exactly one configuration write is appended |
| InterruptPipeline.PowerDown | drivers/net/dwc_eqos/device.cpp:526-533 | nothing stays wanted, receiver and transmitter are switched off by a final configuration write, and nothing else changes |
| EventLog.ArmedAfterNotificationNeedsRegistration | drivers/net/dwc_eqos/device.cpp:356-368 | a queue armed after a notification was registered after that notification |
| EventLog.NotificationNeedsRegistration | drivers/net/dwc_eqos/device.cpp:356-368 | between two notifications in one direction there is a registration of a queue in that direction |
| EventLog.OredBitsStayPending | drivers/net/dwc_eqos/device.cpp:295-297 | ORed bits stay in the status word until the next exchange |
| EventLog.OredBitsTakenByNextExchange | drivers/net/dwc_eqos/device.cpp:319-325 | every ORed bit is taken by the first exchange after it |
| EventLog.PendingBitsWereOred | drivers/net/dwc_eqos/device.cpp:295-297 | every bit of the status word was ORed by some handler run after the last exchange |
| EventLog.TakenBitsWereOredSincePreviousExchange | drivers/net/dwc_eqos/device.cpp:319-325 | every bit an exchange takes was ORed after the exchange before it: no bit is taken that was not ORed, and none is taken twice |
| EventLog.NothingPendingMeansTaken | drivers/net/dwc_eqos/device.cpp:319-325 | an empty status word means every nonzero OR has been followed by an exchange |
| DeviceInvariants.MirrorAfterProgram | drivers/net/dwc_eqos/device.cpp:221-229 | any mask change keeps the enable registers in step with the mask |
| DeviceInvariants.RefreshLinkKeeps | drivers/net/dwc_eqos/device.cpp:139-181 | a link refresh keeps the invariant |
| DeviceInvariants.SetNotificationQueueKeeps | drivers/net/dwc_eqos/device.cpp:946-989 | registering or clearing a queue keeps the invariant |
| DeviceInvariants.IsrKeeps | drivers/net/dwc_eqos/device.cpp:281-305 | the handler keeps the invariant |
| DeviceInvariants.MaskAndNotifyKeeps | drivers/net/dwc_eqos/device.cpp:348-370 | the locked disable-and-notify section keeps the invariant |
| DeviceInvariants.ProcessStatusKeeps | drivers/net/dwc_eqos/device.cpp:327-370 | processing a status word keeps the invariant |
| DeviceInvariants.ExchangeKeeps | drivers/net/dwc_eqos/device.cpp:321 | the exchange alone keeps the invariant |
| DeviceInvariants.UnlockedWorkKeeps | drivers/net/dwc_eqos/device.cpp:327-345 | the unlocked error counting and link refresh keep the invariant, whatever status word they act on |
| DeviceInvariants.DpcIterationKeeps | drivers/net/dwc_eqos/device.cpp:319-371 | one deferred-processor iteration keeps the invariant |
| DeviceInvariants.ConfigureKeeps | drivers/net/dwc_eqos/device.cpp:497-505 | the unlocked part of power-up keeps the invariant |
| DeviceInvariants.EnableStateKeeps | drivers/net/dwc_eqos/device.cpp:507 | the locked State enable keeps the invariant |
| DeviceInvariants.DisableAllKeeps | drivers/net/dwc_eqos/device.cpp:526-529 | disabling every class with no queue registered keeps the invariant |
| DeviceInvariants.DisableMacKeeps | drivers/net/dwc_eqos/device.cpp:531-534 | switching the receiver and transmitter off keeps the invariant |
| DeviceInvariants.PowerUpKeeps | drivers/net/dwc_eqos/device.cpp:491-507 | power-up keeps the invariant |
| DeviceInvariants.PowerDownKeeps | drivers/net/dwc_eqos/device.cpp:526-533 | power-down with no queue registered keeps the invariant |
| DeviceInvariants.DpcIterationIsSchedule | drivers/net/dwc_eqos/device.cpp:319-370 | one sequential deferred-processor iteration is the schedule exchange, then (for a nonzero word) unlocked work and locked work on that word |
| DeviceInvariants.PowerUpIsSchedule | drivers/net/dwc_eqos/device.cpp:497-507 | power-up is the schedule configure, then State enable |
| DeviceInvariants.PowerDownIsSchedule | drivers/net/dwc_eqos/device.cpp:526-534 | power-down with both queues cleared is the schedule disable-all, then receiver/transmitter off |
| DeviceInvariants.StepKeeps | drivers/net/dwc_eqos/device.cpp:217-371 | every step of any context keeps the invariant: only known classes wanted, Rx/Tx wanted iff a queue is registered, slots equal the armed queues, notifications only to armed queues, status word equals the bits pending since the last exchange, enable registers mirror the mask |
| DeviceInvariants.RunKeeps | drivers/net/dwc_eqos/device.cpp:217-371 | the invariant holds after any interleaving of steps |
| DeviceInvariants.AtMostOneNotificationPerRegistration | drivers/net/dwc_eqos/device.cpp:356-368 | in every reachable state, two notifications in one direction are separated by a fresh registration |
| DeviceInvariants.HardwareEnablesFollowQueues | drivers/net/dwc_eqos/device.cpp:946-989 | in every reachable state the channel enable register enables Rx (Tx) exactly while an Rx (Tx) queue is registered |
| DeviceInvariants.DeviceInterruptDpc | drivers/net/dwc_eqos/device.cpp:317-371 | with handler runs between iterations, the drain loop terminates with the status word zero, its last exchange returning zero, and the invariant intact |
| DeviceInvariants.DrainedLeavesNothingBehind | drivers/net/dwc_eqos/device.cpp:317-325 | after the drain, every nonzero OR was followed by an exchange |
| LinkState.UpdateLinkState | drivers/net/dwc_eqos/device.cpp:139-169 | duplex copied to report and configuration; 2.5M/25M/125M map to 10M/100M/1G bit/s and their port select; other codes give speed 0 and keep port select; nothing else in the configuration changes; written iff changed |
| LinkState.ReportMatchesConfig | drivers/net/dwc_eqos/device.cpp:145-176 | a nonzero reported speed is the rate of the port select programmed |
| LinkState.RefreshIdempotent | drivers/net/dwc_eqos/device.cpp:139-169 | a second refresh from the same PHY status writes nothing and reports the same |
| LinkState.RefreshOverwritesLinkFields | drivers/net/dwc_eqos/device.cpp:139-169 | with a known speed, the result does not depend on the old duplex and port select |
| MacAddress.AddressRegistersRoundTrip | drivers/net/dwc_eqos/device.cpp:84-95 | programming an address slot and reading it back as the permanent address is read gives the same address and enable flag |
| MacAddress.ConfiguredAddress | drivers/net/dwc_eqos/device.cpp:574-595 | the configured address is used iff present, six bytes long, not multicast and not broadcast, and then verbatim |
| MacAddress.FixupPermanentAddress | drivers/net/dwc_eqos/device.cpp:705-727 | as written: all-ones or all-zero becomes F2:00 plus the random bytes, otherwise the group bit is cleared; the result is never multicast or broadcast, and is all-zero exactly for 01:00:00:00:00:00 |
| MacAddress.ClearGroupBit | drivers/net/dwc_eqos/device.cpp:721-726 | only bit 0 of byte 0 is cleared; a unicast address is unchanged |
| MacAddress.FixupCanYieldAllZero | drivers/net/dwc_eqos/device.cpp:708-725 | the as-written fixup turns 01:00:00:00:00:00 into the all-zero address |
| MacAddress.CorrectedFixupPermanentAddress | drivers/net/dwc_eqos/device.cpp:705-727 | the result is never multicast, broadcast or all-zero, and equals the as-written result for every other permanent address |
| MacAddress.ResolveCurrentAddress | drivers/net/dwc_eqos/device.cpp:705-707 | the usable configured address wins, otherwise the corrected permanent address; never multicast or broadcast |
| MacAddress.ResolveCurrentAddressAsWritten | drivers/net/dwc_eqos/device.cpp:705-727 | as written: the usable configured address wins, otherwise the uncorrected fix-up; never multicast or broadcast; without a configured address the result is all-zero exactly for 01:00:00:00:00:00 |
| MacAddress.ResolveDeviatesOnlyOnGroupBitOnly | drivers/net/dwc_eqos/device.cpp:705-727 | the corrected and the as-written resolution differ exactly when there is no usable configured address and the permanent address is 01:00:00:00:00:00 |
| MacAddress.SynthesizedIsLocal | drivers/net/dwc_eqos/device.cpp:713-719 | a synthesized address is locally administered |
| MacAddress.CorrectedFixupIdempotent | drivers/net/dwc_eqos/device.cpp:705-727 | fixing up an already fixed address changes nothing, whatever the random bytes |
| MacAddress.UnicastPermanentKept | drivers/net/dwc_eqos/device.cpp:705-727 | a valid unicast permanent address is used unchanged |
| HardwareSetup.ScanResources | drivers/net/dwc_eqos/device.cpp:604-676 | the register window is the first large-enough memory descriptor and the interrupt the first interrupt descriptor; later ones are ignored |
| HardwareSetup.ChooseResources | drivers/net/dwc_eqos/device.cpp:600-691 | a window (interrupt) is found iff some descriptor is a large-enough memory region (an interrupt) |
| HardwareSetup.PollReset | drivers/net/dwc_eqos/device.cpp:116-127 | the poll stops at the first read with the reset bit clear, within the retry budget, and fails only when every read in the budget had it set |
| HardwareSetup.DeviceReset | drivers/net/dwc_eqos/device.cpp:106-131 | success iff the reset bit reads clear within 1000 polls; success writes the reset request and then address slot 0, enabled; timeout writes only the request |
| HardwareSetup.ResetWithinBudget | drivers/net/dwc_eqos/device.cpp:116-131 | a device busy for K polls resets, after K+1 polls, exactly when K is under 1000 |
| HardwareSetup.VersionGateBoundaries | drivers/net/dwc_eqos/device.cpp:748 | release 0x51 with integrator version 0x52 passes; release 0x50 or integrator version 0x53 fails, whatever the other field |
| HardwareSetup.VersionGateMonotone | drivers/net/dwc_eqos/device.cpp:748 | a newer release with an older integrator version than a passing version also passes |
| HardwareSetup.AddressCeilings | drivers/net/dwc_eqos/device.cpp:769-779 | the three ceilings are 2^32-1, 2^40-1 and 2^48-1 |
| HardwareSetup.DmaAddressing | drivers/net/dwc_eqos/device.cpp:760-786 | codes 0/1/2 give 32/40/48 bits with ceiling 2^n-1 and the 64-bit profile for all but 32; the fourth code is a configuration error |
| HardwareSetup.DmaAddressingMonotone | drivers/net/dwc_eqos/device.cpp:767-786 | a wider code reaches strictly more memory |
| HardwareSetup.FifoQueueSize | drivers/net/dwc_eqos/device.cpp:477 | for codes 1 to 24, (size + 1) * 256 is the FIFO's byte count; codes 0 and 25 up wrap to all ones |
| HardwareSetup.PrepareHardware | drivers/net/dwc_eqos/device.cpp:679-853 | a configuration error happens iff the window or the interrupt is missing, the version fails the gate or the address width is unknown; a timeout iff those all pass and the reset never completes; success iff they all pass and the reset bit clears within the budget; on success the addresses, DMA description, link speed cap and reset writes are as chosen |
| ReceiveFilter.MulticastCapacity | drivers/net/dwc_eqos/device.cpp:833-836 | one multicast address per slot beyond slot 0, and none without slots |
| ReceiveFilter.SupportedPacketFilters | drivers/net/dwc_eqos/device.cpp:837-842 | multicast lists are advertised iff the capacity is nonzero; directed, all-multicast, broadcast and promiscuous always are; no other flag is |
| ReceiveFilter.SetReceiveFilter | drivers/net/dwc_eqos/device.cpp:418-450 | promiscuous writes the filter alone; otherwise slot 0 gets the current address (enabled iff directed), every further slot its multicast entry or zeros, then the filter with all-multicast and broadcast as requested |
| ReceiveFilter.MulticastWithinCapacity | drivers/net/dwc_eqos/device.cpp:436-446 | entry j lands in slot j+1, enabled iff it is a full address, exactly when j is under the capacity; entries past it are not programmed |

## Left out

- Framework plumbing: device and adapter creation, `NetAdapterStart`, MTU and capability reporting, DMA-enabler and interrupt-object creation, the queue-creation callbacks, and the spinlock and DPC-queuing calls themselves (a lock section is one atomic step; DPC scheduling is the choice of schedule).
- Memory ordering of the no-fence interlocked operations: the OR and the exchange are atomic steps.
- Failure paths that come from the host rather than the driver's decisions: `NetAdapterOpenConfiguration`, `MmMapIoSpaceEx`, `WdfInterruptCreate` and `WdfDmaEnablerCreate` failing. A failed address query is modelled (an absent configured address).
- The constant register programming of power-up (flow control, operation modes, receive control) and the bus-mode, tick-counter, DMA-control and counter-reset writes of bring-up; only the queue-size formula is modelled, and power-up logs only its MAC configuration write.
- HardwareSetup.FifoQueueSize: the truncation of the value to the width of the queue-size field is not modelled, because that width comes from the register header, which is not part of this model.
- The 20-microsecond stall between reset polls, and `BCryptGenRandom` (its four bytes are an input).
- The link report's pause and auto-negotiation flags, which are constants; the report is speed, connect state and duplex.
- UpdateLinkState and DisableMac read the MAC configuration from the hardware (device.cpp:531 for the latter); the model keeps the driver's copy, since only the driver writes that register.
- `DeviceReleaseHardware` and its statistics dump, and trace logging.
- No error recovery for abnormal or fatal-bus-error status: the driver only counts them, and so does the model (`InterruptPipeline.CountErrors`).
- MacAddress.ResolveCurrentAddress: resolves through the corrected fix-up, so for the permanent address 01:00:00:00:00:00 with no usable configured address it returns a synthesized address where the driver returns 00:00:00:00:00:00; the driver's own result is `MacAddress.ResolveCurrentAddressAsWritten`, and `MacAddress.ResolveDeviatesOnlyOnGroupBitOnly` proves this is the only input where the two differ.
- HardwareSetup.PrepareHardware: its current address, and so the slot-0 write of its reset, come from the corrected resolution; for that one permanent address the driver programs the all-zero address instead.
- DeviceInvariants.DeviceInterruptDpc: the drain loop takes handler runs only between whole iterations; interleavings inside an iteration (between the exchange, the unlocked work and the locked section) are covered by `DeviceInvariants.RunKeeps` over the finer steps, not by this method.
- Each handler run and each link refresh is one step. The handler runs at device level and shares memory with the other contexts only through its interlocked OR; a link refresh from power-up racing one from the deferred processor is not split into its register read and write.
- InterruptPipeline.PowerDown: the driver asserts that both queues are already cleared; the model makes that a precondition instead of modelling a failed assertion.

## Findings

| source | as written | input that shows it | evidently intended | confidence | as-written member | corrected member |
|---|---|---|---|---|---|---|
| drivers/net/dwc_eqos/device.cpp:708-725 | the all-zero / all-ones test looks at the permanent address before its group bit is cleared | permanent address 01:00:00:00:00:00 with no configured address: it passes the test, its group bit is cleared, and the current address becomes 00:00:00:00:00:00 | an all-zero current address is replaced by a synthesized one, as for an all-zero permanent address | medium; not executed | MacAddress.FixupPermanentAddress (shown by MacAddress.FixupCanYieldAllZero) | MacAddress.CorrectedFixupPermanentAddress |
