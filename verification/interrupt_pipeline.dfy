/** The interrupt service routine and the deferred procedure call that
    drains it (device.cpp, DeviceInterruptIsr and DeviceInterruptDpc), and
    the power transitions that arm and disarm the pipeline (DeviceD0Entry,
    DeviceD0Exit). Each function is one atomic step of the real code: the
    handler runs at device level without the lock, the deferred processor's
    exchange is one interlocked operation, and its mask and queue updates
    happen under the subscription lock. */
module InterruptPipeline {
  import opened Wrappers
  import opened Registers
  import opened InterruptMask
  import opened LinkState
  import opened EventLog
  import opened DeviceState

  // ------------------------------------------------------------ the handler

  /** What the handler reads: the MAC link-status event flag and the DMA
      channel 0 status word. */
  datatype IsrReading = IsrReading(linkStatus: bool, channelStatus: bv32)

  /** The bits the handler ORs into the coalesced status word: the channel
      status, plus the synthetic link flag when the MAC reported a link
      event. */
  function IsrBits(reading: IsrReading): (bits: bv32)
    ensures reading.linkStatus ==> bits & LinkStatusBit == LinkStatusBit
    ensures bits == 0 <==> !reading.linkStatus && reading.channelStatus == 0
    // Nothing but the channel status and the link flag is ORed, and the link
    // flag only with a link event.
    ensures !reading.linkStatus ==> bits == reading.channelStatus
    ensures bits & !(reading.channelStatus | LinkStatusBit) == 0
  {
    if reading.linkStatus then reading.channelStatus | LinkStatusBit else reading.channelStatus
  }

  /** Every channel status bit the handler read reaches the pending word. */
  lemma IsrBitsKeepChannelStatus(reading: IsrReading)
    ensures IsrBits(reading) & reading.channelStatus == reading.channelStatus
  {
    if reading.linkStatus {
      OrKeepsOperand(reading.channelStatus, LinkStatusBit);
    }
  }

  lemma OrKeepsOperand(a: bv32, b: bv32)
    ensures (a | b) & a == a
  {
  }

  /** The acknowledging write the handler issues: channel status bits are
      write-one-to-clear, so it writes back what it read, and only when it
      read something. The link event is acknowledged by a register read,
      which leaves no write behind. */
  function IsrAcknowledge(reading: IsrReading): (w: seq<RegWrite>)
    ensures |w| <= 1
    ensures |w| == 1 <==> reading.channelStatus != 0
    ensures |w| == 1 ==> w[0] == Write32(ChannelStatus, reading.channelStatus)
  {
    if reading.channelStatus != 0 then [Write32(ChannelStatus, reading.channelStatus)] else []
  }

  datatype IsrResult = IsrResult(device: Device, handled: bool)

  /** One run of the interrupt handler. */
  function InterruptIsr(d: Device, reading: IsrReading): (r: IsrResult)
    // The interrupt is claimed exactly when the MAC or the channel reported
    // something.
    ensures r.handled <==> reading.linkStatus || reading.channelStatus != 0
    // A claimed interrupt acknowledges the channel, ORs its bits into the
    // status word (so nothing already pending is lost) and counts a hit.
    ensures r.handled ==>
              && r.device.interruptStatus == d.interruptStatus | IsrBits(reading)
              && r.device.events == d.events + [StatusOred(IsrBits(reading))]
              && r.device.writes == d.writes + IsrAcknowledge(reading)
              && r.device.counters == d.counters.(isrHandled := d.counters.isrHandled + 1)
    // An unclaimed one only counts a miss.
    ensures !r.handled ==>
              r.device == d.(counters := d.counters.(isrIgnored := d.counters.isrIgnored + 1))
    // The handler never touches the subscription state or the configuration.
    ensures r.device == d.(interruptStatus := r.device.interruptStatus, counters := r.device.counters,
                           writes := r.device.writes, events := r.device.events)
  {
    if reading.linkStatus || reading.channelStatus != 0 then
      var bits := IsrBits(reading);
      var d' := d.(
        interruptStatus := d.interruptStatus | bits,
        counters := d.counters.(isrHandled := d.counters.isrHandled + 1),
        writes := d.writes + IsrAcknowledge(reading),
        events := d.events + [StatusOred(bits)]);
      IsrResult(d', true)
    else
      IsrResult(d.(counters := d.counters.(isrIgnored := d.counters.isrIgnored + 1)), false)
  }

  // ---------------------------------------------------------- link refresh

  /** Refreshes the link from the PHY status: programs the new configuration
      if it differs and reports the link to the network stack. */
  function RefreshLink(d: Device, phy: PhyIfControlStatus): (r: Device)
    ensures r.macConfig == UpdateLinkState(phy, d.macConfig).newConfig
    ensures r.writes == d.writes + (if r.macConfig != d.macConfig then [WriteMacConfiguration(r.macConfig)] else [])
    ensures r.events == d.events + [LinkReported(UpdateLinkState(phy, d.macConfig).report)]
    ensures r == d.(macConfig := r.macConfig, writes := r.writes, events := r.events)
  {
    var u := UpdateLinkState(phy, d.macConfig);
    d.(macConfig := u.newConfig,
       writes := d.writes + (if u.configWritten then [WriteMacConfiguration(u.newConfig)] else []),
       events := d.events + [LinkReported(u.report)])
  }

  // ------------------------------------------------- the deferred processor

  /** A one-bit field of the status word as the 0/1 the source adds to a
      counter. */
  function FlagValue(status: bv32, flag: bv32): (v: bv32)
    ensures v == 1 <==> status & flag != 0
    ensures v == 0 <==> status & flag == 0
  {
    if status & flag != 0 then 1 else 0
  }

  /** The transfer classes a status word reports. */
  function RxTxClasses(status: bv32): (c: Wanted)
    ensures (c & InterruptsRx != 0) <==> status & ChannelRx != 0
    ensures (c & InterruptsTx != 0) <==> status & ChannelTx != 0
    ensures c & !(InterruptsRx | InterruptsTx) == 0
  {
    (if status & ChannelRx != 0 then InterruptsRx else InterruptsNone)
    | (if status & ChannelTx != 0 then InterruptsTx else InterruptsNone)
  }

  /** Notifies the queue registered in direction `dir`, if the status
      reported that direction and a queue is registered, and clears the
      registration: a registered queue is notified at most once. */
  function NotifyQueue(d: Device, dir: Direction, seen: bool): (r: Device)
    ensures seen && Slot(d, dir).Some? ==>
              && Slot(r, dir).None?
              && r.events == d.events + [Notified(dir, Slot(d, dir).value)]
    ensures !(seen && Slot(d, dir).Some?) ==> r == d
    ensures forall e :: e in d.events ==> e in r.events
    ensures Slot(r, Other(dir)) == Slot(d, Other(dir))
    ensures r == d.(rxQueue := r.rxQueue, txQueue := r.txQueue, counters := r.counters, events := r.events)
  {
    match Slot(d, dir)
    case Some(queue) =>
      if !seen then d
      else
        var logged := d.(events := d.events + [Notified(dir, queue)]);
        (match dir
         case Rx => logged.(rxQueue := None, counters := d.counters.(dpcRx := d.counters.dpcRx + 1))
         case Tx => logged.(txQueue := None, counters := d.counters.(dpcTx := d.counters.dpcTx + 1)))
    case None => d
  }

  /** Counts the abnormal-summary and fatal-bus-error flags of a status
      word. */
  function CountErrors(d: Device, status: bv32): (r: Device)
    ensures r.counters.dpcAbnormalStatus == d.counters.dpcAbnormalStatus + FlagValue(status, ChannelAbnormalSummary)
    ensures r.counters.dpcFatalBusError == d.counters.dpcFatalBusError + FlagValue(status, ChannelFatalBusError)
    ensures r.counters == d.counters.(dpcAbnormalStatus := r.counters.dpcAbnormalStatus,
                                      dpcFatalBusError := r.counters.dpcFatalBusError)
    ensures r == d.(counters := r.counters)
  {
    d.(counters := d.counters.(
      dpcAbnormalStatus := d.counters.dpcAbnormalStatus + FlagValue(status, ChannelAbnormalSummary),
      dpcFatalBusError := d.counters.dpcFatalBusError + FlagValue(status, ChannelFatalBusError)))
  }

  /** Refreshes the link, and counts it, when the link flag is set. */
  function HandleLink(d: Device, status: bv32, phy: PhyIfControlStatus): (r: Device)
    ensures status & LinkStatusBit == 0 ==> r == d
    ensures status & LinkStatusBit != 0 ==>
              && r.counters == d.counters.(dpcLinkState := d.counters.dpcLinkState + 1)
              && r.macConfig == UpdateLinkState(phy, d.macConfig).newConfig
              && r.events == d.events + [LinkReported(UpdateLinkState(phy, d.macConfig).report)]
    ensures status & LinkStatusBit != 0 ==> r == RefreshLink(d.(counters := r.counters), phy).(counters := r.counters)
  {
    if status & LinkStatusBit != 0
    then RefreshLink(d.(counters := d.counters.(dpcLinkState := d.counters.dpcLinkState + 1)), phy)
    else d
  }

  /** The notifications a status word owes: the registered receive queue if
      the word reports receive, then the registered transmit queue if it
      reports transmit; a direction with no queue registered owes nothing. */
  function Notifications(d: Device, status: bv32): seq<Event>
  {
    (if status & ChannelRx != 0 && d.rxQueue.Some? then [Notified(Rx, d.rxQueue.value)] else [])
    + (if status & ChannelTx != 0 && d.txQueue.Some? then [Notified(Tx, d.txQueue.value)] else [])
  }

  /** A counter moved by one when `yes`, left alone otherwise. */
  function CountIf(counter: bv32, yes: bool): bv32
  {
    if yes then counter + 1 else counter
  }

  /** Under the lock: disables the transfer classes a status word reports,
      then notifies and clears the registered queue of each. */
  function MaskAndNotify(d: Device, status: bv32): (r: Device)
    ensures status & ChannelRx != 0 ==> r.wanted & InterruptsRx == 0 && r.rxQueue.None?
    ensures status & ChannelTx != 0 ==> r.wanted & InterruptsTx == 0 && r.txQueue.None?
    ensures status & ChannelRx == 0 ==> r.wanted & InterruptsRx == d.wanted & InterruptsRx && r.rxQueue == d.rxQueue
    ensures status & ChannelTx == 0 ==> r.wanted & InterruptsTx == d.wanted & InterruptsTx && r.txQueue == d.txQueue
    ensures r.wanted & InterruptsState == d.wanted & InterruptsState
    ensures r.wanted & !d.wanted == 0
    ensures r == d.(wanted := r.wanted, rxQueue := r.rxQueue, txQueue := r.txQueue,
                    counters := r.counters, writes := r.writes, events := r.events)
  {
    var classes := RxTxClasses(status);
    if classes == 0 then d
    else
      var masked := InterruptDisable(d, classes);
      NotifyQueue(NotifyQueue(masked, Rx, status & ChannelRx != 0), Tx, status & ChannelTx != 0)
  }

  /** Masking and notifying logs exactly the notifications the status word
      owes, in order. */
  lemma MaskAndNotifyLogsOwed(d: Device, status: bv32)
    ensures MaskAndNotify(d, status).events == d.events + Notifications(d, status)
  {
    var classes := RxTxClasses(status);
    if classes != 0 {
      var masked := InterruptDisable(d, classes);
      var afterRx := NotifyQueue(masked, Rx, status & ChannelRx != 0);
      assert afterRx.events == d.events + (if status & ChannelRx != 0 && d.rxQueue.Some? then [Notified(Rx, d.rxQueue.value)] else []);
      assert afterRx.txQueue == d.txQueue;
    }
  }

  /** Masking and notifying reprograms the two enable registers exactly
      when the mask changes, and writes nothing else. */
  lemma MaskAndNotifyWritesEnables(d: Device, status: bv32)
    ensures var r := MaskAndNotify(d, status);
            r.writes == if r.wanted == d.wanted then d.writes else d.writes + EnableWrites(r.wanted)
  {
  }

  /** Notifying a direction moves only that direction's counter, by one
      exactly when its queue is notified. */
  lemma NotifyQueueCounts(d: Device, dir: Direction, seen: bool)
    ensures var r := NotifyQueue(d, dir, seen);
            && r.counters.dpcRx == (if dir == Rx then CountIf(d.counters.dpcRx, seen && d.rxQueue.Some?) else d.counters.dpcRx)
            && r.counters.dpcTx == (if dir == Tx then CountIf(d.counters.dpcTx, seen && d.txQueue.Some?) else d.counters.dpcTx)
            && r.counters == d.counters.(dpcRx := r.counters.dpcRx, dpcTx := r.counters.dpcTx)
  {
  }

  /** Masking and notifying counts each notification it delivers, per
      direction, and moves no other counter. */
  lemma MaskAndNotifyCountsOwed(d: Device, status: bv32)
    ensures MaskAndNotify(d, status).counters
              == d.counters.(dpcRx := CountIf(d.counters.dpcRx, status & ChannelRx != 0 && d.rxQueue.Some?),
                             dpcTx := CountIf(d.counters.dpcTx, status & ChannelTx != 0 && d.txQueue.Some?))
  {
    var classes := RxTxClasses(status);
    if classes != 0 {
      var masked := InterruptDisable(d, classes);
      NotifyQueueCounts(masked, Rx, status & ChannelRx != 0);
      var afterRx := NotifyQueue(masked, Rx, status & ChannelRx != 0);
      NotifyQueueCounts(afterRx, Tx, status & ChannelTx != 0);
    }
  }

  /** The work one exchanged nonzero status word causes: count errors,
      refresh the link if flagged, then serve the transfer directions. */
  function ProcessStatus(d: Device, status: bv32, phy: PhyIfControlStatus): (r: Device)
    // A reported direction ends up disabled with no queue registered; an
    // unreported one keeps its interrupt class and its queue.
    ensures status & ChannelRx != 0 ==> r.wanted & InterruptsRx == 0 && r.rxQueue.None?
    ensures status & ChannelTx != 0 ==> r.wanted & InterruptsTx == 0 && r.txQueue.None?
    ensures status & ChannelRx == 0 ==> r.wanted & InterruptsRx == d.wanted & InterruptsRx && r.rxQueue == d.rxQueue
    ensures status & ChannelTx == 0 ==> r.wanted & InterruptsTx == d.wanted & InterruptsTx && r.txQueue == d.txQueue
    // The State class is never touched here.
    ensures r.wanted & InterruptsState == d.wanted & InterruptsState
    // The link is refreshed exactly when the link flag is set.
    ensures status & LinkStatusBit == 0 ==> r.macConfig == d.macConfig
    ensures status & LinkStatusBit != 0 ==> r.macConfig == UpdateLinkState(phy, d.macConfig).newConfig
    ensures r.interruptStatus == d.interruptStatus
  {
    MaskAndNotify(HandleLink(CountErrors(d, status), status, phy), status)
  }

  datatype DpcResult = DpcResult(device: Device, taken: bv32, more: bool)

  /** The deferred processor's interlocked exchange of the status word with
      zero: it takes every pending bit at once and leaves none behind. */
  function ExchangeStatus(d: Device): (r: Device)
    ensures r.interruptStatus == 0
    ensures r.events == d.events + [StatusTaken(d.interruptStatus)]
    ensures r == d.(interruptStatus := r.interruptStatus, events := r.events)
  {
    d.(interruptStatus := 0, events := d.events + [StatusTaken(d.interruptStatus)])
  }

  /** One iteration of the deferred processor's loop: exchange the status
      word with zero, and, if it was nonzero, process it. `phy` is what the
      PHY interface status register reads if the link is refreshed. The loop
      continues exactly when the word was nonzero. */
  function DpcIteration(d: Device, phy: PhyIfControlStatus): (r: DpcResult)
    ensures r.taken == d.interruptStatus
    ensures r.more <==> r.taken != 0
    ensures r.device.interruptStatus == 0
    ensures !r.more ==> r.device == d.(events := d.events + [StatusTaken(0)])
  {
    var status := d.interruptStatus;
    var taken := ExchangeStatus(d);
    if status == 0 then DpcResult(taken, status, false)
    else DpcResult(ProcessStatus(taken, status, phy), status, true)
  }

  // --------------------------------------------------- power transitions

  /** The MAC configuration the power-up path programs: receiver and
      transmitter on, carrier sense ignored while transmitting, packet burst
      enabled, every other field zero (full-duplex off, 1000 Mbps port
      select) until the link refresh that follows sets duplex and speed. */
  const PowerUpConfiguration := MacConfiguration(
    receiverEnable := true,
    transmitterEnable := true,
    disableCarrierSense := true,
    fullDuplex := false,
    portSelect := PortSelectSpeed1000M,
    packetBurstEnable := true,
    otherBits := 0)

  /** The part of entering the working power state that runs without the
      lock: program the MAC configuration, then refresh the link from it. */
  function ConfigureForPowerUp(d: Device, phy: PhyIfControlStatus): (r: Device)
    ensures r.macConfig == UpdateLinkState(phy, PowerUpConfiguration).newConfig
    // The power-up configuration is written, then rewritten only if the
    // link changes it.
    ensures r.writes == d.writes + [WriteMacConfiguration(PowerUpConfiguration)]
                        + (if r.macConfig != PowerUpConfiguration then [WriteMacConfiguration(r.macConfig)] else [])
    ensures r.events == d.events + [LinkReported(UpdateLinkState(phy, PowerUpConfiguration).report)]
    ensures r == d.(macConfig := r.macConfig, writes := r.writes, events := r.events)
  {
    var configured := d.(macConfig := PowerUpConfiguration,
                         writes := d.writes + [WriteMacConfiguration(PowerUpConfiguration)]);
    RefreshLink(configured, phy)
  }

  /** Entering the working power state: program the MAC configuration,
      refresh the link, then enable the State interrupt class. */
  function PowerUp(d: Device, phy: PhyIfControlStatus): (r: Device)
    ensures r.macConfig == UpdateLinkState(phy, PowerUpConfiguration).newConfig
    ensures r.macConfig.receiverEnable && r.macConfig.transmitterEnable
    ensures r.wanted == d.wanted | InterruptsState
    ensures r.rxQueue == d.rxQueue && r.txQueue == d.txQueue
    ensures r.interruptStatus == d.interruptStatus && r.counters == d.counters
  {
    InterruptEnable(ConfigureForPowerUp(d, phy), InterruptsState)
  }

  /** The last part of leaving the working power state: read the MAC
      configuration and write it back with the receiver and transmitter
      off. */
  function DisableMac(d: Device): (r: Device)
    ensures !r.macConfig.receiverEnable && !r.macConfig.transmitterEnable
    ensures r.macConfig == d.macConfig.(receiverEnable := false, transmitterEnable := false)
    ensures r.writes == d.writes + [WriteMacConfiguration(r.macConfig)]
    ensures r == d.(macConfig := r.macConfig, writes := r.writes)
  {
    var config := d.macConfig.(receiverEnable := false, transmitterEnable := false);
    d.(macConfig := config, writes := d.writes + [WriteMacConfiguration(config)])
  }

  /** Leaving the working power state: disable every interrupt class, then
      turn off the receiver and transmitter. The framework has already
      cleared both queue registrations. */
  function PowerDown(d: Device): (r: Device)
    requires d.rxQueue.None? && d.txQueue.None?
    ensures r.wanted == InterruptsNone
    ensures !r.macConfig.receiverEnable && !r.macConfig.transmitterEnable
    ensures r.macConfig == d.macConfig.(receiverEnable := false, transmitterEnable := false)
    ensures |r.writes| > 0 && r.writes[|r.writes| - 1] == WriteMacConfiguration(r.macConfig)
    ensures r == d.(wanted := r.wanted, macConfig := r.macConfig, writes := r.writes)
  {
    DisableMac(InterruptDisable(d, InterruptsAll))
  }

  /** A deferred-processor iteration logs exactly: the exchange, a link
      report when the exchanged word carries the link flag, then the
      notifications the word owes the queues registered before it; and it
      disarms each reported direction until a queue is registered again. */
  lemma DpcNotifiesReportedQueues(d: Device, phy: PhyIfControlStatus)
    ensures var r := DpcIteration(d, phy).device;
            var s := d.interruptStatus;
            && r.events == d.events + [StatusTaken(s)]
                 + (if s & LinkStatusBit != 0 then [LinkReported(UpdateLinkState(phy, d.macConfig).report)] else [])
                 + Notifications(d, s)
            && (d.interruptStatus & ChannelRx != 0 ==> r.rxQueue.None? && r.wanted & InterruptsRx == 0)
            && (d.interruptStatus & ChannelTx != 0 ==> r.txQueue.None? && r.wanted & InterruptsTx == 0)
  {
    var status := d.interruptStatus;
    if status != 0 {
      var counted := CountErrors(ExchangeStatus(d), status);
      var linked := HandleLink(counted, status, phy);
      assert linked.rxQueue == d.rxQueue && linked.txQueue == d.txQueue;
      MaskAndNotifyLogsOwed(linked, status);
    }
  }
}
