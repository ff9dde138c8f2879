/** The subset of the controller's registers that the driver core reads or
    writes. Registers the core only tests bit by bit or ORs together are
    32-bit words; registers it reads and writes field by field are records of
    those fields, as the driver's bitfield structs are. Bit positions follow
    the Synopsys DesignWare Ethernet QoS register layout. */
module Registers {
  import opened Wrappers

  /** Registers the core writes as whole 32-bit words. */
  datatype Register =
    | DmaMode
    | MacInterruptEnable
    | ChannelInterruptEnable
    | ChannelStatus

  /** An 8-bit station-address byte. */
  type Byte = bv8

  /** The speed field of the PHY interface control/status register: the
      interface clock the PHY negotiated. */
  datatype PhyIfSpeed = PhyIfSpeed2_5M | PhyIfSpeed25M | PhyIfSpeed125M | PhyIfSpeedReserved

  /** The PHY interface control/status register, as far as the driver reads it. */
  datatype PhyIfControlStatus = PhyIfControlStatus(fullDuplex: bool, speed: PhyIfSpeed, linkUp: bool)

  /** The port-select/speed field of the MAC configuration register. */
  datatype PortSelectSpeed = PortSelectSpeed1000M | PortSelectSpeed2500M | PortSelectSpeed10M | PortSelectSpeed100M

  /** The bits of the MAC configuration register the driver names: receiver
      enable (0), transmitter enable (1), carrier sense during transmit (9),
      duplex (13), speed and port select (14, 15) and packet burst (18). */
  const NamedConfigurationBits: bv32 := 0x4_E203

  /** The rest of the MAC configuration register: never overlaps a named
      field, so two configurations are equal exactly when their 32-bit
      values are. */
  type OtherConfigurationBits = b: bv32 | b & NamedConfigurationBits == 0

  /** The MAC configuration register: the fields the driver names, and the
      remaining bits, which it only carries over. */
  datatype MacConfiguration = MacConfiguration(
    receiverEnable: bool,
    transmitterEnable: bool,
    disableCarrierSense: bool,
    fullDuplex: bool,
    portSelect: PortSelectSpeed,
    packetBurstEnable: bool,
    otherBits: OtherConfigurationBits)

  /** The MAC version register: the core release and the integrator's
      version field. */
  datatype MacVersion = MacVersion(rkVer: bv8, userVer: bv8)

  /** Hardware feature word 0: whether a GMII (gigabit) interface is present
      and how many station-address slots the MAC has. */
  datatype HwFeature0 = HwFeature0(gmii: bool, macAddrCount: bv5)

  /** Hardware feature word 1: receive and transmit FIFO size codes (the FIFO
      holds 128 << code bytes) and the DMA address-width code. */
  datatype HwFeature1 = HwFeature1(rxFifoSize: bv5, txFifoSize: bv5, addressWidth: bv2)

  /** The MAC packet filter register. */
  datatype PacketFilter = PacketFilter(promiscuous: bool, passAllMulticast: bool, disableBroadcast: bool)

  /** The low half of an address slot: the first four address bytes. */
  datatype MacAddressLow = MacAddressLow(addr0: Byte, addr1: Byte, addr2: Byte, addr3: Byte)

  /** The high half of an address slot: the last two address bytes and the
      flag that makes the slot take part in filtering. */
  datatype MacAddressHigh = MacAddressHigh(addr4: Byte, addr5: Byte, addressEnable: bool)

  /** One register write, in the order it reaches the bus. Programming one
      address slot writes its high half and then its low half; the model keeps
      that pair as one entry. */
  datatype RegWrite =
    | Write32(reg: Register, value: bv32)
    | WriteMacConfiguration(config: MacConfiguration)
    | WriteMacAddress(index: nat, high: MacAddressHigh, low: MacAddressLow)
    | WritePacketFilter(filter: PacketFilter)

  // Channel 0 status and interrupt-enable share their bit layout.
  const ChannelTx: bv32 := 0x1
  const ChannelRx: bv32 := 0x40
  const ChannelFatalBusError: bv32 := 0x1000
  const ChannelAbnormalSummary: bv32 := 0x4000
  const ChannelNormalSummary: bv32 := 0x8000

  /** The synthetic flag the interrupt handler adds to the coalesced status
      word when the MAC reported a link-status event. Channel status never
      uses this bit. */
  const LinkStatusBit: bv32 := 0x8000_0000

  // MAC interrupt status and enable: the RGMII link-status event.
  const MacLinkStatus: bv32 := 0x1

  // DMA mode: software reset, self-clearing.
  const DmaSoftwareReset: bv32 := 0x1

  /** The value last written as a whole word to `reg`, if any. */
  function LastWrite(writes: seq<RegWrite>, reg: Register): (r: Option<bv32>)
    ensures r.None? <==> forall i :: 0 <= i < |writes| ==> !(writes[i].Write32? && writes[i].reg == reg)
    ensures r.Some? ==> exists i :: 0 <= i < |writes| && writes[i] == Write32(reg, r.value)
  {
    if |writes| == 0 then None
    else
      var last := writes[|writes| - 1];
      if last.Write32? && last.reg == reg then Some(last.value)
      else
        var prefix := writes[..|writes| - 1];
        assert forall i :: 0 <= i < |prefix| ==> prefix[i] == writes[i];
        LastWrite(prefix, reg)
  }

  /** Appending writes that do not touch `reg` leaves its last value alone. */
  lemma {:induction false} LastWriteAppendOther(writes: seq<RegWrite>, more: seq<RegWrite>, reg: Register)
    requires forall i :: 0 <= i < |more| ==> !(more[i].Write32? && more[i].reg == reg)
    ensures LastWrite(writes + more, reg) == LastWrite(writes, reg)
    decreases |more|
  {
    if |more| == 0 {
      assert writes + more == writes;
    } else {
      var shorter := more[..|more| - 1];
      assert (writes + more)[..|writes + more| - 1] == writes + shorter;
      LastWriteAppendOther(writes, shorter, reg);
    }
  }
}
