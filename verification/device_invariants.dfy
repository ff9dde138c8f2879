/** The invariant the interrupt pipeline keeps across every interleaving of
    its atomic steps, and the deferred processor's drain loop
    (device.cpp, DeviceInterruptDpc) proved against it. */
module DeviceInvariants {
  import opened Wrappers
  import opened Registers
  import opened InterruptMask
  import opened LinkState
  import opened EventLog
  import opened DeviceState
  import opened InterruptPipeline

  /** Only the three known classes are ever wanted, and the receive and
      transmit classes are wanted exactly while a queue is registered for
      them. */
  predicate MaskOk(d: Device)
  {
    && d.wanted & !KnownClasses == 0
    && ((d.wanted & InterruptsRx != 0) <==> d.rxQueue.Some?)
    && ((d.wanted & InterruptsTx != 0) <==> d.txQueue.Some?)
  }

  /** The queue slots are what the history says is armed, every notification
      so far went to an armed queue, the status word holds exactly the bits
      ORed since the last exchange, and every exchange took exactly those. */
  predicate HistoryOk(d: Device)
  {
    && d.rxQueue == Armed(d.events, Rx)
    && d.txQueue == Armed(d.events, Tx)
    && NotificationsArmed(d.events)
    && d.interruptStatus == Pending(d.events)
    && TakesDrainPending(d.events)
  }

  /** The two interrupt-enable registers hold the encoding of the wanted
      mask; before the first write they hold their reset value, which is only
      right while nothing is wanted. */
  predicate EnablesMirrorMask(d: Device)
  {
    || (&& LastWrite(d.writes, MacInterruptEnable).None?
        && LastWrite(d.writes, ChannelInterruptEnable).None?
        && d.wanted == InterruptsNone)
    || (&& LastWrite(d.writes, MacInterruptEnable) == Some(MakeMacInterruptEnable(d.wanted))
        && LastWrite(d.writes, ChannelInterruptEnable) == Some(MakeChannelInterruptEnable(d.wanted)))
  }

  predicate Inv(d: Device)
  {
    MaskOk(d) && HistoryOk(d) && EnablesMirrorMask(d)
  }

  lemma InitialInv(macConfig: MacConfiguration)
    ensures Inv(InitialDevice(macConfig))
  {
  }

  // ------------------------------------------------------ building blocks

  /** Moving the mask keeps the enable registers in step with it. */
  lemma MirrorAfterProgram(d: Device, newWanted: Wanted)
    requires EnablesMirrorMask(d)
    ensures EnablesMirrorMask(ProgramMask(d, newWanted))
  {
    if newWanted != d.wanted {
      LastWriteOfEnables(d.writes, newWanted);
    }
  }

  /** Writes to other registers leave the enable registers alone. */
  lemma MirrorAfterOtherWrites(d: Device, more: seq<RegWrite>)
    requires EnablesMirrorMask(d)
    requires forall i :: 0 <= i < |more| ==> !(more[i].Write32? && more[i].reg in {MacInterruptEnable, ChannelInterruptEnable})
    ensures EnablesMirrorMask(d.(writes := d.writes + more))
  {
    LastWriteAppendOther(d.writes, more, MacInterruptEnable);
    LastWriteAppendOther(d.writes, more, ChannelInterruptEnable);
  }

  /** Logging an event that neither notifies nor exchanges keeps the history
      well formed when the slots follow the event. */
  lemma LogKeepsHistory(d: Device, e: Event, d': Device)
    requires HistoryOk(d)
    requires !e.Notified? && !e.StatusTaken?
    requires d'.events == d.events + [e]
    requires d'.rxQueue == (if e.Registered? && e.dir == Rx then e.queue else d.rxQueue)
    requires d'.txQueue == (if e.Registered? && e.dir == Tx then e.queue else d.txQueue)
    requires d'.interruptStatus == (if e.StatusOred? then d.interruptStatus | e.bits else d.interruptStatus)
    ensures HistoryOk(d')
  {
    AppendKeepsHistory(d.events, e);
    ArmedAppend(d.events, e, Rx);
    ArmedAppend(d.events, e, Tx);
    PendingAppend(d.events, e);
  }

  lemma RefreshLinkKeeps(d: Device, phy: PhyIfControlStatus)
    requires Inv(d)
    ensures Inv(RefreshLink(d, phy))
  {
    var r := RefreshLink(d, phy);
    LogKeepsHistory(d, LinkReported(UpdateLinkState(phy, d.macConfig).report), r);
    MirrorAfterOtherWrites(d, r.writes[|d.writes|..]);
    assert d.writes + r.writes[|d.writes|..] == r.writes;
  }

  lemma NotifyKeepsHistory(d: Device, dir: Direction, seen: bool)
    requires HistoryOk(d)
    ensures HistoryOk(NotifyQueue(d, dir, seen))
  {
    if seen && Slot(d, dir).Some? {
      var e := Notified(dir, Slot(d, dir).value);
      AppendKeepsHistory(d.events, e);
      ArmedAppend(d.events, e, Rx);
      ArmedAppend(d.events, e, Tx);
      PendingAppend(d.events, e);
    }
  }

  // ------------------------------------------------------------- the steps

  lemma SetNotificationQueueKeeps(d: Device, dir: Direction, queue: Option<QueueHandle>)
    requires Inv(d)
    ensures Inv(SetNotificationQueue(d, dir, queue))
  {
    var slotted := match dir
      case Rx => d.(rxQueue := queue)
      case Tx => d.(txQueue := queue);
    var logged := slotted.(events := d.events + [Registered(dir, queue)]);
    LogKeepsHistory(d, Registered(dir, queue), logged);
    var bit := ClassOf(dir);
    if queue.Some? {
      MirrorAfterProgram(logged, logged.wanted | bit);
    } else {
      MirrorAfterProgram(logged, logged.wanted & !bit);
    }
  }

  lemma IsrKeeps(d: Device, reading: IsrReading)
    requires Inv(d)
    ensures Inv(InterruptIsr(d, reading).device)
  {
    var r := InterruptIsr(d, reading);
    if r.handled {
      LogKeepsHistory(d, StatusOred(IsrBits(reading)), r.device);
      MirrorAfterOtherWrites(d, IsrAcknowledge(reading));
    }
  }

  lemma MaskAndNotifyKeeps(d: Device, status: bv32)
    requires Inv(d)
    ensures Inv(MaskAndNotify(d, status))
  {
    var classes := RxTxClasses(status);
    if classes != 0 {
      var masked := InterruptDisable(d, classes);
      MirrorAfterProgram(d, d.wanted & !classes);
      NotifyKeepsHistory(masked, Rx, status & ChannelRx != 0);
      NotifyKeepsHistory(NotifyQueue(masked, Rx, status & ChannelRx != 0), Tx, status & ChannelTx != 0);
    }
  }

  lemma ProcessStatusKeeps(d: Device, status: bv32, phy: PhyIfControlStatus)
    requires Inv(d)
    ensures Inv(ProcessStatus(d, status, phy))
  {
    UnlockedWorkKeeps(d, status, phy);
    MaskAndNotifyKeeps(HandleLink(CountErrors(d, status), status, phy), status);
  }

  lemma ExchangeKeeps(d: Device)
    requires Inv(d)
    ensures Inv(ExchangeStatus(d))
  {
    var e := StatusTaken(d.interruptStatus);
    AppendKeepsHistory(d.events, e);
    ArmedAppend(d.events, e, Rx);
    ArmedAppend(d.events, e, Tx);
    PendingAppend(d.events, e);
  }

  /** The deferred processor's unlocked work keeps the invariant whatever
      status word it acts on. */
  lemma UnlockedWorkKeeps(d: Device, status: bv32, phy: PhyIfControlStatus)
    requires Inv(d)
    ensures Inv(HandleLink(CountErrors(d, status), status, phy))
  {
    var counted := CountErrors(d, status);
    if status & LinkStatusBit != 0 {
      RefreshLinkKeeps(counted.(counters := counted.counters.(dpcLinkState := counted.counters.dpcLinkState + 1)), phy);
    }
  }

  lemma DpcIterationKeeps(d: Device, phy: PhyIfControlStatus)
    requires Inv(d)
    ensures Inv(DpcIteration(d, phy).device)
  {
    ExchangeKeeps(d);
    if d.interruptStatus != 0 {
      ProcessStatusKeeps(ExchangeStatus(d), d.interruptStatus, phy);
    }
  }

  lemma ConfigureKeeps(d: Device, phy: PhyIfControlStatus)
    requires Inv(d)
    ensures Inv(ConfigureForPowerUp(d, phy))
  {
    var configured := d.(macConfig := PowerUpConfiguration,
                         writes := d.writes + [WriteMacConfiguration(PowerUpConfiguration)]);
    MirrorAfterOtherWrites(d, [WriteMacConfiguration(PowerUpConfiguration)]);
    RefreshLinkKeeps(configured, phy);
  }

  lemma EnableStateKeeps(d: Device)
    requires Inv(d)
    ensures Inv(InterruptEnable(d, InterruptsState))
  {
    MirrorAfterProgram(d, d.wanted | InterruptsState);
  }

  lemma DisableAllKeeps(d: Device)
    requires Inv(d)
    requires d.rxQueue.None? && d.txQueue.None?
    ensures Inv(InterruptDisable(d, InterruptsAll))
  {
    MirrorAfterProgram(d, d.wanted & !InterruptsAll);
  }

  lemma DisableMacKeeps(d: Device)
    requires Inv(d)
    ensures Inv(DisableMac(d))
  {
    MirrorAfterOtherWrites(d, [WriteMacConfiguration(DisableMac(d).macConfig)]);
  }

  lemma PowerUpKeeps(d: Device, phy: PhyIfControlStatus)
    requires Inv(d)
    ensures Inv(PowerUp(d, phy))
  {
    ConfigureKeeps(d, phy);
    EnableStateKeeps(ConfigureForPowerUp(d, phy));
  }

  lemma PowerDownKeeps(d: Device)
    requires Inv(d)
    requires d.rxQueue.None? && d.txQueue.None?
    ensures Inv(PowerDown(d))
  {
    DisableAllKeeps(d);
    DisableMacKeeps(InterruptDisable(d, InterruptsAll));
  }

  // ------------------------------------------------------ interleavings

  /** One atomic step of any context that touches the pipeline. Each is a
      stretch of the driver that runs under the subscription lock, is a
      single interlocked operation, or touches only state no other context
      writes. The deferred processor's two steps after the exchange take the
      status word as a parameter: any word is allowed, not only the one the
      exchange returned, so every schedule of the real driver is among the
      schedules below. */
  datatype Step =
    | SetQueue(dir: Direction, queue: Option<QueueHandle>)
    | Isr(reading: IsrReading)
    | DpcExchange
    | DpcUnlocked(status: bv32, phy: PhyIfControlStatus)
    | DpcLocked(status: bv32)
    | D0EntryConfigure(phy: PhyIfControlStatus)
    | D0EntryEnable
    | D0ExitDisable
    | D0ExitMacOff

  /** The framework only leaves the working state after both queues have
      been cleared. */
  predicate Allowed(d: Device, step: Step)
  {
    step.D0ExitDisable? ==> d.rxQueue.None? && d.txQueue.None?
  }

  function Apply(d: Device, step: Step): Device
    requires Allowed(d, step)
  {
    match step
    case SetQueue(dir, queue) => SetNotificationQueue(d, dir, queue)
    case Isr(reading) => InterruptIsr(d, reading).device
    case DpcExchange => ExchangeStatus(d)
    case DpcUnlocked(status, phy) => HandleLink(CountErrors(d, status), status, phy)
    case DpcLocked(status) => MaskAndNotify(d, status)
    case D0EntryConfigure(phy) => ConfigureForPowerUp(d, phy)
    case D0EntryEnable => InterruptEnable(d, InterruptsState)
    case D0ExitDisable => InterruptDisable(d, InterruptsAll)
    case D0ExitMacOff => DisableMac(d)
  }

  /** Runs a schedule of steps, stopping at the first one that is not
      allowed. */
  function Run(d: Device, steps: seq<Step>): Device
    decreases |steps|
  {
    if |steps| == 0 || !Allowed(d, steps[0]) then d else Run(Apply(d, steps[0]), steps[1..])
  }

  /** Every step keeps the invariant. */
  lemma StepKeeps(d: Device, step: Step)
    requires Inv(d) && Allowed(d, step)
    ensures Inv(Apply(d, step))
  {
    match step
    case SetQueue(dir, queue) => SetNotificationQueueKeeps(d, dir, queue);
    case Isr(reading) => IsrKeeps(d, reading);
    case DpcExchange => ExchangeKeeps(d);
    case DpcUnlocked(status, phy) => UnlockedWorkKeeps(d, status, phy);
    case DpcLocked(status) => MaskAndNotifyKeeps(d, status);
    case D0EntryConfigure(phy) => ConfigureKeeps(d, phy);
    case D0EntryEnable => EnableStateKeeps(d);
    case D0ExitDisable => DisableAllKeeps(d);
    case D0ExitMacOff => DisableMacKeeps(d);
  }

  /** Running one step. */
  lemma RunOne(d: Device, step: Step, rest: seq<Step>)
    requires Allowed(d, step)
    ensures Run(d, [step] + rest) == Run(Apply(d, step), rest)
  {
    assert ([step] + rest)[0] == step;
    assert ([step] + rest)[1..] == rest;
  }

  /** One deferred-processor iteration is a schedule of the steps above: the
      exchange, then, for a nonzero word, the unlocked and the locked work on
      that word. */
  lemma DpcIterationIsSchedule(d: Device, phy: PhyIfControlStatus)
    ensures var s := d.interruptStatus;
            DpcIteration(d, phy).device
              == Run(d, [DpcExchange] + (if s == 0 then [] else [DpcUnlocked(s, phy), DpcLocked(s)]))
  {
    var s := d.interruptStatus;
    var taken := ExchangeStatus(d);
    if s != 0 {
      var unlocked := HandleLink(CountErrors(taken, s), s, phy);
      RunOne(unlocked, DpcLocked(s), []);
      RunOne(taken, DpcUnlocked(s, phy), [DpcLocked(s)]);
      RunOne(d, DpcExchange, [DpcUnlocked(s, phy), DpcLocked(s)]);
    } else {
      RunOne(d, DpcExchange, []);
    }
  }

  /** Power-up is a schedule of the steps above. */
  lemma PowerUpIsSchedule(d: Device, phy: PhyIfControlStatus)
    ensures PowerUp(d, phy) == Run(d, [D0EntryConfigure(phy), D0EntryEnable])
  {
    var configured := ConfigureForPowerUp(d, phy);
    RunOne(configured, D0EntryEnable, []);
    assert [D0EntryEnable] + [] == [D0EntryEnable];
    RunOne(d, D0EntryConfigure(phy), [D0EntryEnable]);
    assert [D0EntryConfigure(phy)] + [D0EntryEnable] == [D0EntryConfigure(phy), D0EntryEnable];
  }

  /** Power-down, once both queues are cleared, is a schedule of the steps
      above. */
  lemma PowerDownIsSchedule(d: Device)
    requires d.rxQueue.None? && d.txQueue.None?
    ensures PowerDown(d) == Run(d, [D0ExitDisable, D0ExitMacOff])
  {
    var masked := InterruptDisable(d, InterruptsAll);
    RunOne(masked, D0ExitMacOff, []);
    assert [D0ExitMacOff] + [] == [D0ExitMacOff];
    RunOne(d, D0ExitDisable, [D0ExitMacOff]);
    assert [D0ExitDisable] + [D0ExitMacOff] == [D0ExitDisable, D0ExitMacOff];
  }

  /** Whatever the interleaving, the invariant holds from the initial state
      on. */
  lemma {:induction false} RunKeeps(d: Device, steps: seq<Step>)
    requires Inv(d)
    ensures Inv(Run(d, steps))
    decreases |steps|
  {
    if |steps| > 0 && Allowed(d, steps[0]) {
      StepKeeps(d, steps[0]);
      RunKeeps(Apply(d, steps[0]), steps[1..]);
    }
  }

  /** In every reachable state, a queue is notified at most once per
      registration: two notifications in the same direction always have a
      registration of a queue between them. */
  lemma AtMostOneNotificationPerRegistration(
    macConfig: MacConfiguration, steps: seq<Step>, i: nat, j: nat)
    requires var ev := Run(InitialDevice(macConfig), steps).events;
             i < j < |ev| && ev[i].Notified? && ev[j].Notified? && ev[i].dir == ev[j].dir
    ensures var ev := Run(InitialDevice(macConfig), steps).events;
            exists k :: i < k < j && ev[k].Registered? && ev[k].dir == ev[i].dir && ev[k].queue.Some?
  {
    InitialInv(macConfig);
    RunKeeps(InitialDevice(macConfig), steps);
    NotificationNeedsRegistration(Run(InitialDevice(macConfig), steps).events, i, j);
  }

  /** In every reachable state, the interrupt-enable registers enable the
      receive (transmit) event exactly while a receive (transmit) queue is
      registered. */
  lemma HardwareEnablesFollowQueues(macConfig: MacConfiguration, steps: seq<Step>)
    ensures var d := Run(InitialDevice(macConfig), steps);
            var channel := LastWrite(d.writes, ChannelInterruptEnable);
            && (channel.None? ==> d.rxQueue.None? && d.txQueue.None?)
            && (channel.Some? ==> ((channel.value & ChannelRx != 0) <==> d.rxQueue.Some?))
            && (channel.Some? ==> ((channel.value & ChannelTx != 0) <==> d.txQueue.Some?))
  {
    InitialInv(macConfig);
    RunKeeps(InitialDevice(macConfig), steps);
  }

  // --------------------------------------------------------- the drain loop

  /** Runs the handler once per reading, in order. */
  function RunIsrs(d: Device, readings: seq<IsrReading>): Device
    decreases |readings|
  {
    if |readings| == 0 then d else RunIsrs(InterruptIsr(d, readings[0]).device, readings[1..])
  }

  lemma {:induction false} RunIsrsKeeps(d: Device, readings: seq<IsrReading>)
    requires Inv(d)
    ensures Inv(RunIsrs(d, readings))
    decreases |readings|
  {
    if |readings| > 0 {
      IsrKeeps(d, readings[0]);
      RunIsrsKeeps(InterruptIsr(d, readings[0]).device, readings[1..]);
    }
  }

  /** The deferred processor: exchange and process the status word until an
      exchange returns zero. Between iterations the handler may run again;
      `arrivals[k]` are the interrupts taken after iteration `k`, and
      `phyAt(k)` is what the PHY status register reads in iteration `k`.
      The loop ends with the status word drained and every invariant
      intact, however many interrupts arrive while it runs. */
  method DeviceInterruptDpc(d: Device, arrivals: seq<seq<IsrReading>>, phyAt: nat -> PhyIfControlStatus)
    returns (r: Device, iterations: nat)
    requires Inv(d)
    ensures Inv(r)
    ensures r.interruptStatus == 0
    ensures |r.events| > 0 && r.events[|r.events| - 1] == StatusTaken(0)
    ensures 1 <= iterations <= |arrivals| + 2
  {
    r := d;
    iterations := 0;
    var k := 0;
    while true
      invariant Inv(r)
      invariant 0 <= k <= |arrivals|
      invariant iterations <= k + (if r.interruptStatus == 0 then 1 else 0)
      invariant iterations <= k + 1
      decreases |arrivals| - k, if r.interruptStatus == 0 then 0 else 1
    {
      var step := DpcIteration(r, phyAt(iterations));
      DpcIterationKeeps(r, phyAt(iterations));
      r := step.device;
      iterations := iterations + 1;
      if !step.more {
        return;
      }
      if k < |arrivals| {
        RunIsrsKeeps(r, arrivals[k]);
        r := RunIsrs(r, arrivals[k]);
        k := k + 1;
      }
    }
  }

  /** Once the loop has drained the status word, no interrupt it absorbed
      was lost: every nonzero OR in the history was followed by an
      exchange. */
  lemma DrainedLeavesNothingBehind(d: Device, i: nat)
    requires Inv(d) && d.interruptStatus == 0
    requires i < |d.events| && d.events[i].StatusOred? && d.events[i].bits != 0
    ensures exists k :: i < k < |d.events| && d.events[k].StatusTaken?
  {
    NothingPendingMeansTaken(d.events, i);
  }
}
