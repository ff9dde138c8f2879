/** Hardware bring-up decisions (device.cpp, DeviceReset and
    DevicePrepareHardware): resource selection, the bounded software-reset
    poll, the hardware version gate, the DMA address-width mapping, the FIFO
    queue-size formula used at power-up, and the order in which bring-up
    fails. */
module HardwareSetup {
  import opened Wrappers
  import opened Registers
  import opened MacAddress

  /** Bring-up failures: a configuration error (missing resource,
      unsupported hardware, unknown address width) or a reset timeout. */
  datatype DeviceError = ConfigurationError | Timeout

  // ---------------------------------------------------------------- resources

  /** A platform resource descriptor, as far as bring-up looks at it. */
  datatype Resource = MemoryResource(length: nat) | InterruptResource | OtherResource

  /** Which descriptors bring-up uses: the register window and the interrupt
      line that drives the handler. */
  datatype ResourceChoice = ResourceChoice(registers: Option<nat>, interrupt: Option<nat>)

  predicate UsableMemory(r: Resource, registerFileSize: nat)
  {
    r.MemoryResource? && r.length >= registerFileSize
  }

  /** Scans descriptors `from` onwards, given what the earlier ones chose. A
      memory window is mapped only while none is mapped yet and only if it is
      large enough; the first interrupt line drives the handler and later ones
      are ignored. */
  function ScanResources(resources: seq<Resource>, registerFileSize: nat, from: nat, chosen: ResourceChoice): (r: ResourceChoice)
    requires from <= |resources|
    requires chosen.registers.Some? ==> chosen.registers.value < from
    requires chosen.interrupt.Some? ==> chosen.interrupt.value < from
    ensures chosen.registers.Some? ==> r.registers == chosen.registers
    ensures chosen.interrupt.Some? ==> r.interrupt == chosen.interrupt
    ensures chosen.registers.None? ==>
              match r.registers
              case Some(i) => from <= i < |resources| && UsableMemory(resources[i], registerFileSize)
                              && forall j :: from <= j < i ==> !UsableMemory(resources[j], registerFileSize)
              case None => forall j :: from <= j < |resources| ==> !UsableMemory(resources[j], registerFileSize)
    ensures chosen.interrupt.None? ==>
              match r.interrupt
              case Some(i) => from <= i < |resources| && resources[i].InterruptResource?
                              && forall j :: from <= j < i ==> !resources[j].InterruptResource?
              case None => forall j :: from <= j < |resources| ==> !resources[j].InterruptResource?
    decreases |resources| - from
  {
    if from == |resources| then chosen
    else
      var res := resources[from];
      var next :=
        if res.MemoryResource? && chosen.registers.None? && res.length >= registerFileSize then
          chosen.(registers := Some(from))
        else if res.InterruptResource? && chosen.interrupt.None? then
          chosen.(interrupt := Some(from))
        else chosen;
      ScanResources(resources, registerFileSize, from + 1, next)
  }

  /** The resources bring-up uses from the platform's list. */
  function ChooseResources(resources: seq<Resource>, registerFileSize: nat): (r: ResourceChoice)
    ensures r.registers.Some? <==> exists i :: 0 <= i < |resources| && UsableMemory(resources[i], registerFileSize)
    ensures r.interrupt.Some? <==> exists i :: 0 <= i < |resources| && resources[i].InterruptResource?
    ensures r.registers.Some? ==> r.registers.value < |resources| && UsableMemory(resources[r.registers.value], registerFileSize)
  {
    ScanResources(resources, registerFileSize, 0, ResourceChoice(None, None))
  }

  // -------------------------------------------------------------------- reset

  /** The number of times the reset bit is polled before giving up. */
  const ResetRetryLimit: nat := 1000

  /** Polls the DMA mode register for the software-reset bit to clear.
      `dmaModeAt(k)` is the value the k-th read returns; `retry` reads remain
      and `polled` have been made. The result is the number of reads made
      when the bit was first seen clear. */
  function PollReset(dmaModeAt: nat -> bv32, retry: nat, polled: nat): (r: Option<nat>)
    ensures r.Some? ==> && polled < r.value <= polled + retry
                        && dmaModeAt(r.value - 1) & DmaSoftwareReset == 0
                        && forall k :: polled <= k < r.value - 1 ==> dmaModeAt(k) & DmaSoftwareReset != 0
    ensures r.None? ==> forall k :: polled <= k < polled + retry ==> dmaModeAt(k) & DmaSoftwareReset != 0
    decreases retry
  {
    if retry == 0 then None
    else if dmaModeAt(polled) & DmaSoftwareReset == 0 then Some(polled + 1)
    else PollReset(dmaModeAt, retry - 1, polled + 1)
  }

  /** The outcome of a software reset and the register writes it made. */
  datatype ResetOutcome =
    | ResetSucceeded(polls: nat, writes: seq<RegWrite>)
    | ResetTimedOut(writes: seq<RegWrite>)

  /** Software reset: request it, poll for completion up to the retry limit,
      and on completion program `mac0` into address slot 0, enabled. */
  function DeviceReset(dmaModeAt: nat -> bv32, mac0: MacAddr): (r: ResetOutcome)
    ensures r.ResetSucceeded? <==> exists k :: 0 <= k < ResetRetryLimit && dmaModeAt(k) & DmaSoftwareReset == 0
    ensures r.ResetSucceeded? ==>
              && 1 <= r.polls <= ResetRetryLimit
              && dmaModeAt(r.polls - 1) & DmaSoftwareReset == 0
              && (forall k :: 0 <= k < r.polls - 1 ==> dmaModeAt(k) & DmaSoftwareReset != 0)
              && r.writes == [Write32(DmaMode, DmaSoftwareReset),
                              WriteMacAddress(0, AddressRegisters(mac0, true).0, AddressRegisters(mac0, true).1)]
    ensures r.ResetTimedOut? ==> r.writes == [Write32(DmaMode, DmaSoftwareReset)]
  {
    var request := [Write32(DmaMode, DmaSoftwareReset)];
    match PollReset(dmaModeAt, ResetRetryLimit, 0)
    case Some(polls) =>
      var (high, low) := AddressRegisters(mac0, true);
      ResetSucceeded(polls, request + [WriteMacAddress(0, high, low)])
    case None => ResetTimedOut(request)
  }

  /** A reset bit that reads as set for exactly `busy` polls and clear after
      that. */
  function BusyFor(busy: nat): nat -> bv32
  {
    k => if k < busy then DmaSoftwareReset else 0
  }

  /** A device that stays in reset for `busy` polls resets successfully, after
      `busy + 1` polls, exactly when `busy` is under the retry limit. */
  lemma ResetWithinBudget(busy: nat, mac0: MacAddr)
    ensures DeviceReset(BusyFor(busy), mac0).ResetSucceeded? <==> busy < ResetRetryLimit
    ensures busy < ResetRetryLimit ==> DeviceReset(BusyFor(busy), mac0).polls == busy + 1
  {
    var r := DeviceReset(BusyFor(busy), mac0);
    if busy < ResetRetryLimit {
      assert BusyFor(busy)(busy) & DmaSoftwareReset == 0;
      assert BusyFor(busy)(r.polls - 1) & DmaSoftwareReset == 0;
    } else {
      assert forall k :: 0 <= k < ResetRetryLimit ==> BusyFor(busy)(k) & DmaSoftwareReset != 0;
    }
  }

  // ---------------------------------------------------- version and addressing

  /** The hardware version gate: core release at least 0x51 and integrator
      version at most 0x52. */
  predicate VersionSupported(version: MacVersion)
  {
    version.rkVer >= 0x51 && version.userVer <= 0x52
  }

  /** The gate accepts exactly the boundary versions and rejects the ones
      just outside them. */
  lemma VersionGateBoundaries(rkVer: bv8, userVer: bv8)
    ensures VersionSupported(MacVersion(0x51, 0x52))
    ensures !VersionSupported(MacVersion(0x50, userVer))
    ensures !VersionSupported(MacVersion(rkVer, 0x53))
  {
  }

  /** A newer core release with an older integrator version than a supported
      one is supported too: the gate is a lower bound on one field and an
      upper bound on the other. */
  lemma VersionGateMonotone(a: MacVersion, b: MacVersion)
    requires VersionSupported(a)
    requires b.rkVer >= a.rkVer && b.userVer <= a.userVer
    ensures VersionSupported(b)
  {
  }

  function Pow2(n: nat): (r: nat)
    ensures r >= 1
  {
    if n == 0 then 1 else 2 * Pow2(n - 1)
  }

  lemma {:induction false} Pow2Add(a: nat, b: nat)
    ensures Pow2(a + b) == Pow2(a) * Pow2(b)
    decreases a
  {
    if a > 0 {
      Pow2Add(a - 1, b);
    }
  }

  /** The ceilings of the three address widths. */
  lemma AddressCeilings()
    ensures Pow2(32) - 1 == 0xFFFF_FFFF
    ensures Pow2(40) - 1 == 0xFF_FFFF_FFFF
    ensures Pow2(48) - 1 == 0xFFFF_FFFF_FFFF
  {
    assert Pow2(8) == 256;
    Pow2Add(8, 8);
    Pow2Add(16, 16);
    Pow2Add(32, 8);
    Pow2Add(32, 16);
  }

  /** How the DMA engine is described to the system: the address width, the
      highest reachable physical address, and whether the 64-bit
      scatter/gather profile is used. */
  datatype DmaCapability = DmaCapability(addressWidth: nat, maximumPhysicalAddress: nat, scatterGather64: bool)

  /** Maps the address-width code of hardware feature word 1 to the DMA
      description. Codes 0, 1 and 2 stand for 32, 40 and 48 address bits; the
      fourth code is a configuration error. */
  function DmaAddressing(code: bv2): (r: Result<DmaCapability, DeviceError>)
    ensures r.Success? <==> code != 3
    ensures r.Failure? ==> r.error == ConfigurationError
    ensures r.Success? ==> && r.value.addressWidth == 32 + 8 * code as nat
                           && r.value.maximumPhysicalAddress == Pow2(r.value.addressWidth) - 1
                           && (r.value.scatterGather64 <==> r.value.addressWidth != 32)
  {
    AddressCeilings();
    var scatterGather64 := code != 0;
    if code == 0 then Success(DmaCapability(32, 0xFFFF_FFFF, scatterGather64))
    else if code == 1 then Success(DmaCapability(40, 0xFF_FFFF_FFFF, scatterGather64))
    else if code == 2 then Success(DmaCapability(48, 0xFFFF_FFFF_FFFF, scatterGather64))
    else Failure(ConfigurationError)
  }

  /** A wider address code reaches strictly more memory. */
  lemma DmaAddressingMonotone(a: bv2, b: bv2)
    requires a < b < 3
    ensures DmaAddressing(a).value.maximumPhysicalAddress < DmaAddressing(b).value.maximumPhysicalAddress
  {
    var wa := DmaAddressing(a).value.addressWidth;
    var wb := DmaAddressing(b).value.addressWidth;
    Pow2Add(wa, wb - wa);
    assert Pow2(wb - wa) >= 2 by {
      assert wb - wa > 0;
    }
  }

  // --------------------------------------------------------------- queue size

  /** The MTL queue-size value programmed at power-up for a FIFO size code, in
      32-bit unsigned arithmetic: the FIFO holds `128 << code` bytes and the
      queue size counts 256-byte blocks, minus one. For codes 1 to 24 the
      whole FIFO is used; code 0 (a 128-byte FIFO) and codes from 25 (where
      `128 << code` overflows 32 bits) wrap around to all ones. */
  function FifoQueueSize(fifoSize: bv5): (r: bv32)
    ensures 1 <= fifoSize <= 24 ==> (r + 1) * 256 == (128 as bv32) << fifoSize
    ensures fifoSize == 0 || fifoSize >= 25 ==> r == 0xFFFF_FFFF
  {
    ((128 as bv32) << fifoSize) / 256 - 1
  }

  // ------------------------------------------------------------------ bring-up

  /** What bring-up establishes for the adapter. */
  datatype PreparedDevice = PreparedDevice(
    permanentAddress: MacAddr,
    currentAddress: MacAddr,
    dma: DmaCapability,
    maxLinkSpeed: nat,
    resetWrites: seq<RegWrite>)

  /** Bring-up, in the driver's order: choose resources, read the permanent
      address and choose the current one, gate on the version, map the
      address width, and reset the device with the current address. The first
      failing step decides the error. */
  function PrepareHardware(
    config: Option<LinkLayerAddress>,
    resources: seq<Resource>,
    registerFileSize: nat,
    mac0High: MacAddressHigh,
    mac0Low: MacAddressLow,
    random: RandomBytes,
    version: MacVersion,
    feature0: HwFeature0,
    feature1: HwFeature1,
    dmaModeAt: nat -> bv32): (r: Result<PreparedDevice, DeviceError>)
    // Missing register window or interrupt line, unsupported version and
    // unknown address width are configuration errors, checked in that order
    // before the reset; a reset that never completes is a timeout.
    ensures (forall i :: 0 <= i < |resources| ==> !UsableMemory(resources[i], registerFileSize)) ==>
              r == Failure(ConfigurationError)
    ensures (forall i :: 0 <= i < |resources| ==> !resources[i].InterruptResource?) ==>
              r == Failure(ConfigurationError)
    ensures !VersionSupported(version) ==> r == Failure(ConfigurationError)
    ensures feature1.addressWidth == 3 ==> r == Failure(ConfigurationError)
    ensures r == Failure(Timeout) <==>
              && (exists i :: 0 <= i < |resources| && UsableMemory(resources[i], registerFileSize))
              && (exists i :: 0 <= i < |resources| && resources[i].InterruptResource?)
              && VersionSupported(version)
              && feature1.addressWidth != 3
              && (forall k :: 0 <= k < ResetRetryLimit ==> dmaModeAt(k) & DmaSoftwareReset != 0)
    // Bring-up fails with a configuration error exactly when one of those
    // checks fails, and succeeds exactly when they all pass and the reset
    // bit clears within the retry budget.
    ensures r == Failure(ConfigurationError) <==>
              || (forall i :: 0 <= i < |resources| ==> !UsableMemory(resources[i], registerFileSize))
              || (forall i :: 0 <= i < |resources| ==> !resources[i].InterruptResource?)
              || !VersionSupported(version)
              || feature1.addressWidth == 3
    ensures r.Success? <==>
              && (exists i :: 0 <= i < |resources| && UsableMemory(resources[i], registerFileSize))
              && (exists i :: 0 <= i < |resources| && resources[i].InterruptResource?)
              && VersionSupported(version)
              && feature1.addressWidth != 3
              && (exists k :: 0 <= k < ResetRetryLimit && dmaModeAt(k) & DmaSoftwareReset == 0)
    ensures r.Success? ==>
              && r.value.permanentAddress == ReadAddress(mac0High, mac0Low)
              && r.value.currentAddress == ResolveCurrentAddress(config, r.value.permanentAddress, random)
              && r.value.dma == DmaAddressing(feature1.addressWidth).value
              && r.value.maxLinkSpeed == (if feature0.gmii then 1_000_000_000 else 100_000_000)
              && r.value.resetWrites == DeviceReset(dmaModeAt, r.value.currentAddress).writes
  {
    var chosen := ChooseResources(resources, registerFileSize);
    if chosen.registers.None? || chosen.interrupt.None? then Failure(ConfigurationError)
    else
      var permanent := ReadAddress(mac0High, mac0Low);
      var current := ResolveCurrentAddress(config, permanent, random);
      if !VersionSupported(version) then Failure(ConfigurationError)
      else match DmaAddressing(feature1.addressWidth)
        case Failure(e) => Failure(e)
        case Success(dma) =>
          var maxLinkSpeed := if feature0.gmii then 1_000_000_000 else 100_000_000;
          match DeviceReset(dmaModeAt, current)
          case ResetTimedOut(_) => Failure(Timeout)
          case ResetSucceeded(_, writes) =>
            Success(PreparedDevice(permanent, current, dma, maxLinkSpeed, writes))
  }
}
