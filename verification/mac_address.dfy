/** Station-address handling: how an address is laid out in an address slot
    (device.cpp, SetOneMacAddress and the permanent-address read in
    DevicePrepareHardware) and how the current address is chosen from the
    configured override and the permanent address. */
module MacAddress {
  import opened Wrappers
  import opened Registers

  const EthernetAddressLength: nat := 6

  /** A six-byte Ethernet address. */
  type MacAddr = a: seq<Byte> | |a| == EthernetAddressLength witness [0, 0, 0, 0, 0, 0]

  /** The four bytes the system random generator supplies for a synthesized
      address. They are an input to the model, not computed by it. */
  type RandomBytes = a: seq<Byte> | |a| == 4 witness [0, 0, 0, 0]

  /** The adapter framework's link-layer address: a length and a fixed
      32-byte buffer. */
  const LinkLayerAddressCapacity: nat := 32
  type AddressBuffer = a: seq<Byte> | |a| == LinkLayerAddressCapacity witness seq(32, _ => 0)
  datatype LinkLayerAddress = LinkLayerAddress(length: nat, address: AddressBuffer)

  /** The first byte of a synthesized address: locally administered (bit 1)
      and unicast (bit 0 clear). */
  const SynthesizedPrefix0: Byte := 0xF2
  const SynthesizedPrefix1: Byte := 0x00

  /** Group bit: bit 0 of the first byte. */
  predicate IsMulticast(a: seq<Byte>)
    requires |a| >= 1
  {
    a[0] & 1 != 0
  }

  predicate IsBroadcast(a: seq<Byte>)
    requires |a| >= EthernetAddressLength
  {
    forall i :: 0 <= i < EthernetAddressLength ==> a[i] == 0xFF
  }

  predicate IsAllZero(a: seq<Byte>)
    requires |a| >= EthernetAddressLength
  {
    forall i :: 0 <= i < EthernetAddressLength ==> a[i] == 0
  }

  predicate IsLocallyAdministered(a: seq<Byte>)
    requires |a| >= 1
  {
    a[0] & 2 != 0
  }

  /** The pair of register values that programs `a` into an address slot. */
  function AddressRegisters(a: MacAddr, enable: bool): (MacAddressHigh, MacAddressLow)
  {
    (MacAddressHigh(a[4], a[5], enable), MacAddressLow(a[0], a[1], a[2], a[3]))
  }

  /** The address held by an address slot, as the permanent address is read. */
  function ReadAddress(high: MacAddressHigh, low: MacAddressLow): (a: MacAddr)
  {
    [low.addr0, low.addr1, low.addr2, low.addr3, high.addr4, high.addr5]
  }

  /** Programming a slot and reading it back gives the same address and the
      requested enable flag: the slot layout loses nothing. */
  lemma AddressRegistersRoundTrip(a: MacAddr, enable: bool)
    ensures var (high, low) := AddressRegisters(a, enable);
            ReadAddress(high, low) == a && high.addressEnable == enable
  {
  }

  /** The configured override, when it is usable: present, exactly six bytes
      long, and neither multicast nor broadcast. `None` for an absent
      configuration entry stands for the failed query. */
  function ConfiguredAddress(config: Option<LinkLayerAddress>): (r: Option<MacAddr>)
    ensures r.Some? <==>
              && config.Some?
              && config.value.length == EthernetAddressLength
              && !IsMulticast(config.value.address)
              && !IsBroadcast(config.value.address)
    ensures r.Some? ==> r.value == config.value.address[..EthernetAddressLength]
  {
    match config
    case None => None
    case Some(c) =>
      if c.length != EthernetAddressLength then None
      else if IsMulticast(c.address) || IsBroadcast(c.address) then None
      else Some(c.address[..EthernetAddressLength])
  }

  /** The one permanent address that the corrections below turn into the
      all-zero address: only the group bit set. */
  const GroupBitOnly: MacAddr := [1, 0, 0, 0, 0, 0]

  /** The corrections the driver applies to the permanent address when it is
      used as the current address, as written: an all-ones or all-zero address
      is replaced by a synthesized locally administered one, and otherwise the
      group bit is cleared. The all-zero test runs before the group bit is
      cleared, so `GroupBitOnly` comes out all-zero. */
  function FixupPermanentAddress(permanent: MacAddr, random: RandomBytes): (r: MacAddr)
    ensures IsBroadcast(permanent) || IsAllZero(permanent) ==>
              r == [SynthesizedPrefix0, SynthesizedPrefix1] + random
    ensures !IsBroadcast(permanent) && !IsAllZero(permanent) ==>
              r[0] == permanent[0] & 0xFE && r[1..] == permanent[1..]
    ensures !IsMulticast(r) && !IsBroadcast(r)
    ensures IsAllZero(r) <==> permanent == GroupBitOnly
  {
    if IsBroadcast(permanent) || IsAllZero(permanent) then
      var r := [SynthesizedPrefix0, SynthesizedPrefix1] + random;
      assert r[0] != 0;
      assert GroupBitOnly[1] != 0xFF && GroupBitOnly[0] != 0;
      r
    else if permanent[0] & 1 != 0 then
      var r := ClearGroupBit(permanent);
      assert IsAllZero(r) <==> permanent == GroupBitOnly by {
        if IsAllZero(r) {
          assert permanent[0] == 1;
          assert forall i :: 1 <= i < EthernetAddressLength ==> permanent[i] == r[i] == 0;
          assert permanent == GroupBitOnly;
        }
      }
      r
    else
      assert permanent == ClearGroupBit(permanent);
      permanent
  }

  /** `a` with its group bit cleared and every other bit kept. */
  function ClearGroupBit(a: MacAddr): (r: MacAddr)
    ensures !IsMulticast(r) && !IsBroadcast(r)
    ensures r[0] == a[0] & 0xFE && r[1..] == a[1..]
    ensures !IsMulticast(a) ==> r == a
  {
    var r := [a[0] & 0xFE] + a[1..];
    assert r[1..] == a[1..];
    assert !IsMulticast(a) ==> r == a by {
      if !IsMulticast(a) {
        assert a[0] & 0xFE == a[0];
        assert a == [a[0]] + a[1..];
      }
    }
    r
  }

  /** The as-written corrections produce the all-zero address, which is not a
      usable station address, from the permanent address 01:00:00:00:00:00. */
  lemma FixupCanYieldAllZero(random: RandomBytes)
    ensures IsAllZero(FixupPermanentAddress(GroupBitOnly, random))
  {
  }

  /** The corrections as evidently intended: the all-zero test is applied to
      the address the driver would otherwise use, after its group bit is
      cleared. The result is then always a valid unicast address, and it
      differs from the as-written one only for `GroupBitOnly`. */
  function CorrectedFixupPermanentAddress(permanent: MacAddr, random: RandomBytes): (r: MacAddr)
    ensures !IsMulticast(r) && !IsBroadcast(r) && !IsAllZero(r)
    ensures permanent != GroupBitOnly ==> r == FixupPermanentAddress(permanent, random)
    ensures permanent == GroupBitOnly ==> r == [SynthesizedPrefix0, SynthesizedPrefix1] + random
  {
    var cleared := ClearGroupBit(permanent);
    if IsBroadcast(permanent) || IsAllZero(cleared) then
      assert IsAllZero(cleared) && !IsAllZero(permanent) ==> permanent == GroupBitOnly by {
        if IsAllZero(cleared) && !IsAllZero(permanent) {
          assert forall i :: 1 <= i < EthernetAddressLength ==> permanent[i] == cleared[i] == 0;
          assert permanent[0] != 0;
          assert permanent[0] == 1;
          assert permanent == GroupBitOnly;
        }
      }
      [SynthesizedPrefix0, SynthesizedPrefix1] + random
    else
      assert !IsAllZero(permanent);
      assert permanent != GroupBitOnly;
      cleared
  }

  /** The current address: the configured override when usable, otherwise the
      corrected permanent address. */
  function ResolveCurrentAddress(config: Option<LinkLayerAddress>, permanent: MacAddr, random: RandomBytes): (r: MacAddr)
    ensures ConfiguredAddress(config).Some? ==> r == config.value.address[..EthernetAddressLength]
    ensures ConfiguredAddress(config).None? ==> r == CorrectedFixupPermanentAddress(permanent, random)
    ensures !IsMulticast(r) && !IsBroadcast(r)
  {
    match ConfiguredAddress(config)
    case Some(a) => a
    case None => CorrectedFixupPermanentAddress(permanent, random)
  }

  /** The resolution exactly as the driver writes it, with the uncorrected
      fix-up. */
  function ResolveCurrentAddressAsWritten(config: Option<LinkLayerAddress>, permanent: MacAddr, random: RandomBytes): (r: MacAddr)
    ensures ConfiguredAddress(config).Some? ==> r == config.value.address[..EthernetAddressLength]
    ensures ConfiguredAddress(config).None? ==> r == FixupPermanentAddress(permanent, random)
    ensures !IsMulticast(r) && !IsBroadcast(r)
    ensures ConfiguredAddress(config).None? ==> (IsAllZero(r) <==> permanent == GroupBitOnly)
  {
    match ConfiguredAddress(config)
    case Some(a) => a
    case None => FixupPermanentAddress(permanent, random)
  }

  /** The model's resolution departs from the driver's for exactly one input:
      no usable configured address and a permanent address of
      01:00:00:00:00:00, where the driver ends up with the all-zero address. */
  lemma ResolveDeviatesOnlyOnGroupBitOnly(config: Option<LinkLayerAddress>, permanent: MacAddr, random: RandomBytes)
    ensures (ResolveCurrentAddress(config, permanent, random) != ResolveCurrentAddressAsWritten(config, permanent, random))
            <==> ConfiguredAddress(config).None? && permanent == GroupBitOnly
  {
    if ConfiguredAddress(config).None? && permanent == GroupBitOnly {
      FixupCanYieldAllZero(random);
    }
  }

  /** A synthesized address is locally administered, so it cannot collide
      with a vendor-assigned one. */
  lemma SynthesizedIsLocal(permanent: MacAddr, random: RandomBytes)
    requires IsBroadcast(permanent) || IsAllZero(permanent)
    ensures IsLocallyAdministered(CorrectedFixupPermanentAddress(permanent, random))
  {
  }

  /** Correcting an address that has already been corrected changes nothing,
      whatever random bytes are offered the second time. */
  lemma CorrectedFixupIdempotent(permanent: MacAddr, random: RandomBytes, random2: RandomBytes)
    ensures var once := CorrectedFixupPermanentAddress(permanent, random);
            CorrectedFixupPermanentAddress(once, random2) == once
  {
    var once := CorrectedFixupPermanentAddress(permanent, random);
    assert once != GroupBitOnly by {
      assert !IsAllZero(once);
      assert !IsMulticast(once);
    }
    UnicastPermanentKept(once, random2);
  }

  /** A permanent address that is already a valid unicast address is used
      unchanged. */
  lemma UnicastPermanentKept(permanent: MacAddr, random: RandomBytes)
    requires !IsMulticast(permanent) && !IsBroadcast(permanent) && !IsAllZero(permanent)
    ensures CorrectedFixupPermanentAddress(permanent, random) == permanent
  {
    assert permanent != GroupBitOnly;
  }
}
