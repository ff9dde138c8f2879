/** The per-controller state the interrupt pipeline shares between contexts
    (device.cpp, DeviceContext), and the operations on the subscription
    state that run under the subscription lock: enabling and disabling
    interrupt classes (DeviceInterruptEnable_Locked,
    DeviceInterruptDisable_Locked) and registering or clearing a queue for
    notification (DeviceSetNotificationRxQueue, DeviceSetNotificationTxQueue). */
module DeviceState {
  import opened Wrappers
  import opened Registers
  import opened InterruptMask
  import opened LinkState
  import opened EventLog

  /** Diagnostic counters, each a 32-bit unsigned value that wraps. */
  datatype Counters = Counters(
    isrHandled: bv32,
    isrIgnored: bv32,
    dpcLinkState: bv32,
    dpcRx: bv32,
    dpcTx: bv32,
    dpcAbnormalStatus: bv32,
    dpcFatalBusError: bv32)

  const ZeroCounters := Counters(0, 0, 0, 0, 0, 0, 0)

  /** The mutable part of the device context. `wanted` and the two queue
      slots form the subscription state; `interruptStatus` is the coalesced
      status word; `macConfig` mirrors the MAC configuration register, which
      only the driver writes; `writes` and `events` are the observable
      history. */
  datatype Device = Device(
    wanted: Wanted,
    rxQueue: Option<QueueHandle>,
    txQueue: Option<QueueHandle>,
    interruptStatus: bv32,
    macConfig: MacConfiguration,
    counters: Counters,
    writes: seq<RegWrite>,
    events: seq<Event>)

  /** The state right after the hardware has been prepared: nothing wanted,
      no queue registered, nothing pending. */
  function InitialDevice(macConfig: MacConfiguration): (d: Device)
  {
    Device(InterruptsNone, None, None, 0, macConfig, ZeroCounters, [], [])
  }

  /** The queue slot of a direction. */
  function Slot(d: Device, dir: Direction): Option<QueueHandle>
  {
    match dir
    case Rx => d.rxQueue
    case Tx => d.txQueue
  }

  /** The interrupt class of a direction. */
  function ClassOf(dir: Direction): (bit: Wanted)
    ensures bit & KnownClasses == bit && bit != InterruptsState
  {
    match dir
    case Rx => InterruptsRx
    case Tx => InterruptsTx
  }

  function Other(dir: Direction): Direction
  {
    match dir
    case Rx => Tx
    case Tx => Rx
  }

  /** The two writes that program the hardware for a wanted mask: the MAC
      enable, then the channel enable. */
  function EnableWrites(wanted: Wanted): (w: seq<RegWrite>)
  {
    [Write32(MacInterruptEnable, MakeMacInterruptEnable(wanted)),
     Write32(ChannelInterruptEnable, MakeChannelInterruptEnable(wanted))]
  }

  /** Moves the wanted mask to `newWanted`, programming both enable registers
      only when the mask actually changes. */
  function ProgramMask(d: Device, newWanted: Wanted): (r: Device)
    ensures r.wanted == newWanted
    ensures r.writes == if newWanted == d.wanted then d.writes else d.writes + EnableWrites(newWanted)
    ensures r == d.(wanted := r.wanted, writes := r.writes)
  {
    if newWanted == d.wanted then d
    else d.(wanted := newWanted, writes := d.writes + EnableWrites(newWanted))
  }

  /** Enables the classes in `bits` (lock held). */
  function InterruptEnable(d: Device, bits: Wanted): (r: Device)
    ensures r.wanted == d.wanted | bits
    ensures r.wanted == d.wanted ==> r == d
    ensures |r.writes| == |d.writes| + (if r.wanted == d.wanted then 0 else 2)
    ensures r.wanted != d.wanted ==> r.writes == d.writes + EnableWrites(r.wanted)
    ensures r == d.(wanted := r.wanted, writes := r.writes)
  {
    ProgramMask(d, d.wanted | bits)
  }

  /** Disables the classes in `bits` (lock held). */
  function InterruptDisable(d: Device, bits: Wanted): (r: Device)
    ensures r.wanted == d.wanted & !bits
    ensures r.wanted == d.wanted ==> r == d
    ensures |r.writes| == |d.writes| + (if r.wanted == d.wanted then 0 else 2)
    ensures r.wanted != d.wanted ==> r.writes == d.writes + EnableWrites(r.wanted)
    ensures r == d.(wanted := r.wanted, writes := r.writes)
  {
    ProgramMask(d, d.wanted & !bits)
  }

  /** Repeating an enable changes neither the mask nor the writes. */
  lemma EnableIdempotent(d: Device, bits: Wanted)
    ensures InterruptEnable(InterruptEnable(d, bits), bits) == InterruptEnable(d, bits)
  {
  }

  /** Repeating a disable changes neither the mask nor the writes. */
  lemma DisableIdempotent(d: Device, bits: Wanted)
    ensures InterruptDisable(InterruptDisable(d, bits), bits) == InterruptDisable(d, bits)
  {
  }

  /** Disabling everything clears every bit of the mask. */
  lemma DisableAllClears(d: Device)
    ensures InterruptDisable(d, InterruptsAll).wanted == InterruptsNone
  {
  }

  /** A request made under the lock to the interrupt mask manager. */
  datatype MaskOp = EnableOp(bits: Wanted) | DisableOp(bits: Wanted)

  /** The mask one request leaves: OR for an enable, AND-NOT for a disable. */
  function MaskAfter(wanted: Wanted, op: MaskOp): Wanted
  {
    match op
    case EnableOp(bits) => wanted | bits
    case DisableOp(bits) => wanted & !bits
  }

  /** The mask a sequence of requests leaves. */
  function FoldMask(wanted: Wanted, ops: seq<MaskOp>): Wanted
    decreases |ops|
  {
    if |ops| == 0 then wanted else FoldMask(MaskAfter(wanted, ops[0]), ops[1..])
  }

  /** How many requests of a sequence actually change the mask. */
  function Changes(wanted: Wanted, ops: seq<MaskOp>): nat
    decreases |ops|
  {
    if |ops| == 0 then 0
    else
      var next := MaskAfter(wanted, ops[0]);
      (if next == wanted then 0 else 1) + Changes(next, ops[1..])
  }

  /** Performs one request. */
  function ApplyMaskOp(d: Device, op: MaskOp): (r: Device)
    ensures r.wanted == MaskAfter(d.wanted, op)
    ensures r.writes == if r.wanted == d.wanted then d.writes else d.writes + EnableWrites(r.wanted)
  {
    match op
    case EnableOp(bits) => InterruptEnable(d, bits)
    case DisableOp(bits) => InterruptDisable(d, bits)
  }

  /** Applies a sequence of requests in lock order. */
  function ApplyMaskOps(d: Device, ops: seq<MaskOp>): Device
    decreases |ops|
  {
    if |ops| == 0 then d else ApplyMaskOps(ApplyMaskOp(d, ops[0]), ops[1..])
  }

  /** Whatever the request sequence, the mask is its OR / AND-NOT fold, each
      request that changes the mask costs exactly two register writes and
      every other request costs none, and when anything was written the
      enable registers hold the encoding of the final mask. */
  lemma {:induction false} MaskOpsFold(d: Device, ops: seq<MaskOp>)
    ensures ApplyMaskOps(d, ops).wanted == FoldMask(d.wanted, ops)
    ensures |ApplyMaskOps(d, ops).writes| == |d.writes| + 2 * Changes(d.wanted, ops)
    ensures Changes(d.wanted, ops) > 0 ==>
              && LastWrite(ApplyMaskOps(d, ops).writes, MacInterruptEnable)
                   == Some(MakeMacInterruptEnable(FoldMask(d.wanted, ops)))
              && LastWrite(ApplyMaskOps(d, ops).writes, ChannelInterruptEnable)
                   == Some(MakeChannelInterruptEnable(FoldMask(d.wanted, ops)))
    ensures Changes(d.wanted, ops) == 0 ==>
              ApplyMaskOps(d, ops).writes == d.writes && FoldMask(d.wanted, ops) == d.wanted
    decreases |ops|
  {
    if |ops| > 0 {
      var next := ApplyMaskOp(d, ops[0]);
      MaskOpsFold(next, ops[1..]);
      if next.wanted != d.wanted && Changes(next.wanted, ops[1..]) == 0 {
        LastWriteOfEnables(d.writes, next.wanted);
      }
    }
  }

  /** After the enable writes for `wanted`, both enable registers hold its
      encoding. */
  lemma LastWriteOfEnables(writes: seq<RegWrite>, wanted: Wanted)
    ensures LastWrite(writes + EnableWrites(wanted), MacInterruptEnable) == Some(MakeMacInterruptEnable(wanted))
    ensures LastWrite(writes + EnableWrites(wanted), ChannelInterruptEnable) == Some(MakeChannelInterruptEnable(wanted))
  {
    var all := writes + EnableWrites(wanted);
    assert all[..|all| - 1] == writes + [EnableWrites(wanted)[0]];
  }

  /** Registers (`queue` non-null) or clears (`queue` null) the queue
      notified in direction `dir`, enabling or disabling that direction's
      interrupt class with it (lock held). */
  function SetNotificationQueue(d: Device, dir: Direction, queue: Option<QueueHandle>): (r: Device)
    // The slot holds the new registration, and the direction's interrupt is
    // wanted exactly when a queue is registered.
    ensures Slot(r, dir) == queue
    ensures (r.wanted & ClassOf(dir) != 0) <==> queue.Some?
    // Nothing else in the subscription state changes.
    ensures r.wanted & !ClassOf(dir) == d.wanted & !ClassOf(dir)
    ensures Slot(r, Other(dir)) == Slot(d, Other(dir))
    ensures r.events == d.events + [Registered(dir, queue)]
    // The two enable registers are reprogrammed exactly when the mask
    // changes, and nothing else is written.
    ensures r.writes == if r.wanted == d.wanted then d.writes else d.writes + EnableWrites(r.wanted)
    ensures r == d.(wanted := r.wanted, rxQueue := r.rxQueue, txQueue := r.txQueue,
                    writes := r.writes, events := r.events)
  {
    var slotted := match dir
      case Rx => d.(rxQueue := queue)
      case Tx => d.(txQueue := queue);
    var logged := slotted.(events := d.events + [Registered(dir, queue)]);
    if queue.Some? then InterruptEnable(logged, ClassOf(dir))
    else InterruptDisable(logged, ClassOf(dir))
  }

  /** Registering and then clearing a direction leaves its interrupt class
      disabled and its slot empty, and the rest of the subscription state as
      it was before the registration. */
  lemma RegisterThenClear(d: Device, dir: Direction, queue: QueueHandle)
    ensures var r := SetNotificationQueue(SetNotificationQueue(d, dir, Some(queue)), dir, None);
            && r.wanted & ClassOf(dir) == 0
            && Slot(r, dir).None?
            && r.wanted & !ClassOf(dir) == d.wanted & !ClassOf(dir)
            && Slot(r, Other(dir)) == Slot(d, Other(dir))
  {
  }
}
