/** The receive filter (device.cpp, AdapterSetReceiveFilter) and the filter
    capabilities reported at bring-up: promiscuous mode, or the directed
    address in slot 0 plus one multicast address per further slot. */
module ReceiveFilter {
  import opened Registers
  import opened MacAddress

  // Packet-filter request flags from the adapter framework.
  const FlagDirected: bv32 := 0x1
  const FlagMulticast: bv32 := 0x2
  const FlagAllMulticast: bv32 := 0x4
  const FlagBroadcast: bv32 := 0x8
  const FlagPromiscuous: bv32 := 0x20

  const ZeroAddress: MacAddr := [0, 0, 0, 0, 0, 0]

  /** How many multicast addresses the adapter advertises it can filter: one
      per address slot beyond slot 0. */
  function MulticastCapacity(macAddrCount: nat): (r: nat)
    ensures macAddrCount >= 1 ==> r + 1 == macAddrCount
    ensures macAddrCount == 0 ==> r == 0
  {
    if macAddrCount > 1 then macAddrCount - 1 else 0
  }

  /** The filter kinds advertised: everything, with multicast lists only when
      there is at least one multicast slot. */
  function SupportedPacketFilters(macAddrCount: nat): (r: bv32)
    ensures r & FlagMulticast != 0 <==> MulticastCapacity(macAddrCount) > 0
    ensures r & (FlagDirected | FlagAllMulticast | FlagBroadcast | FlagPromiscuous)
            == FlagDirected | FlagAllMulticast | FlagBroadcast | FlagPromiscuous
    ensures r & !(FlagDirected | FlagMulticast | FlagAllMulticast | FlagBroadcast | FlagPromiscuous) == 0
  {
    FlagDirected
    | (if MulticastCapacity(macAddrCount) > 0 then FlagMulticast else 0)
    | FlagAllMulticast | FlagBroadcast | FlagPromiscuous
  }

  /** Whether multicast list entry `j` is usable for slot `j + 1`. */
  predicate MulticastUsable(mcast: seq<LinkLayerAddress>, j: nat)
  {
    j < |mcast| && mcast[j].length >= EthernetAddressLength
  }

  /** The programming of multicast slot `slot` (at least 1) from list entry
      `slot - 1`: the entry's first six bytes, enabled, when usable; zeros,
      disabled, otherwise. */
  function MulticastSlot(slot: nat, mcast: seq<LinkLayerAddress>): (w: RegWrite)
    requires slot >= 1
  {
    var enable := MulticastUsable(mcast, slot - 1);
    var address: MacAddr := if enable then mcast[slot - 1].address[..EthernetAddressLength] else ZeroAddress;
    var (high, low) := AddressRegisters(address, enable);
    WriteMacAddress(slot, high, low)
  }

  /** The register writes for one filter request. `flags` are the requested
      filter kinds, `mcast` the multicast list offered with them, `current`
      the current station address and `macAddrCount` the number of address
      slots. The list is consulted only when multicast filtering is
      requested. */
  function SetReceiveFilter(flags: bv32, mcast: seq<LinkLayerAddress>, current: MacAddr, macAddrCount: nat): (writes: seq<RegWrite>)
    // Promiscuous mode programs the filter register alone.
    ensures flags & FlagPromiscuous != 0 ==>
              writes == [WritePacketFilter(PacketFilter(true, false, false))]
    // Otherwise every slot is programmed, in order, then the filter.
    ensures flags & FlagPromiscuous == 0 ==>
              && |writes| == (if macAddrCount > 1 then macAddrCount else 1) + 1
              && writes[|writes| - 1] == WritePacketFilter(PacketFilter(
                   false, flags & FlagAllMulticast != 0, flags & FlagBroadcast == 0))
              && var (high, low) := AddressRegisters(current, flags & FlagDirected != 0);
                 writes[0] == WriteMacAddress(0, high, low)
    ensures flags & FlagPromiscuous == 0 ==>
              forall slot :: 1 <= slot < macAddrCount ==>
                writes[slot] == MulticastSlot(slot, if flags & FlagMulticast != 0 then mcast else [])
  {
    if flags & FlagPromiscuous != 0 then
      [WritePacketFilter(PacketFilter(true, false, false))]
    else
      var offered := if flags & FlagMulticast != 0 then mcast else [];
      var (high, low) := AddressRegisters(current, flags & FlagDirected != 0);
      var slots := if macAddrCount > 1 then seq(macAddrCount - 1, (k: nat) => MulticastSlot(k + 1, offered)) else [];
      var filter := PacketFilter(false, flags & FlagAllMulticast != 0, flags & FlagBroadcast == 0);
      [WriteMacAddress(0, high, low)] + slots + [WritePacketFilter(filter)]
  }

  /** The advertised capacity is what the slots hold: when multicast
      filtering is requested, list entry `j` is programmed, enabled, into
      slot `j + 1` exactly when `j` is under the capacity and the entry is a
      full address; entries past the capacity are not programmed at all. */
  lemma {:induction false} MulticastWithinCapacity(flags: bv32, mcast: seq<LinkLayerAddress>, current: MacAddr, macAddrCount: nat, j: nat)
    requires flags & FlagPromiscuous == 0 && flags & FlagMulticast != 0
    requires j < |mcast|
    ensures var writes := SetReceiveFilter(flags, mcast, current, macAddrCount);
            j < MulticastCapacity(macAddrCount) ==>
              writes[j + 1].WriteMacAddress? && writes[j + 1].index == j + 1
              && (writes[j + 1].high.addressEnable <==> mcast[j].length >= EthernetAddressLength)
              && (mcast[j].length >= EthernetAddressLength ==>
                    ReadAddress(writes[j + 1].high, writes[j + 1].low) == mcast[j].address[..EthernetAddressLength])
    ensures var writes := SetReceiveFilter(flags, mcast, current, macAddrCount);
            j >= MulticastCapacity(macAddrCount) ==>
              forall i :: 0 <= i < |writes| && writes[i].WriteMacAddress? ==> writes[i].index != j + 1
  {
    var writes := SetReceiveFilter(flags, mcast, current, macAddrCount);
    if j < MulticastCapacity(macAddrCount) {
      var slot := j + 1;
      assert writes[slot] == MulticastSlot(slot, mcast);
      var address: MacAddr := if MulticastUsable(mcast, j) then mcast[j].address[..EthernetAddressLength] else ZeroAddress;
      AddressRegistersRoundTrip(address, MulticastUsable(mcast, j));
    } else {
      forall i | 0 <= i < |writes| && writes[i].WriteMacAddress?
        ensures writes[i].index != j + 1
      {
        if 1 <= i < macAddrCount {
          assert writes[i] == MulticastSlot(i, mcast);
        }
      }
    }
  }
}
