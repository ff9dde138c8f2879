/** The interrupt classes the driver wants, and how a wanted mask is encoded
    into the MAC and DMA-channel interrupt-enable registers
    (device.cpp, MakeMacInterruptEnable and MakeChannelInterruptEnable). */
module InterruptMask {
  import opened Registers

  /** The wanted mask is a C `char`: eight bits. */
  type Wanted = bv8

  const InterruptsNone: Wanted := 0
  /** Link status, abnormal summary and fatal bus error. */
  const InterruptsState: Wanted := 1
  const InterruptsRx: Wanted := 2
  const InterruptsTx: Wanted := 4
  /** The enumerator -1, which as a `char` has every bit set. */
  const InterruptsAll: Wanted := 0xFF

  /** The three classes that have a meaning to the hardware. */
  const KnownClasses: Wanted := 7

  /** MAC interrupt-enable word for a wanted mask: the link-status event is
      enabled exactly when the State class is wanted, and nothing else is. */
  function MakeMacInterruptEnable(wanted: Wanted): (r: bv32)
    ensures (r & MacLinkStatus != 0) <==> (wanted & InterruptsState != 0)
    ensures r & !MacLinkStatus == 0
  {
    if wanted & InterruptsState != 0 then MacLinkStatus else 0
  }

  /** The channel bits the encoder may ever set. */
  const ChannelEnableBits: bv32 :=
    ChannelTx | ChannelRx | ChannelFatalBusError | ChannelAbnormalSummary | ChannelNormalSummary

  /** DMA channel interrupt-enable word for a wanted mask. The normal
      interrupt summary is always on, since the hardware gates the receive and
      transmit events behind it; receive and transmit follow their classes;
      fatal bus error and abnormal summary both follow the State class. */
  function MakeChannelInterruptEnable(wanted: Wanted): (r: bv32)
    ensures r & ChannelNormalSummary != 0
    ensures (r & ChannelRx != 0) <==> (wanted & InterruptsRx != 0)
    ensures (r & ChannelTx != 0) <==> (wanted & InterruptsTx != 0)
    ensures (r & ChannelFatalBusError != 0) <==> (wanted & InterruptsState != 0)
    ensures (r & ChannelAbnormalSummary != 0) <==> (wanted & InterruptsState != 0)
    ensures r & !ChannelEnableBits == 0
  {
    var rx: bv32 := if wanted & InterruptsRx != 0 then ChannelRx else 0;
    var tx: bv32 := if wanted & InterruptsTx != 0 then ChannelTx else 0;
    var state: bv32 := if wanted & InterruptsState != 0 then ChannelFatalBusError | ChannelAbnormalSummary else 0;
    rx | tx | ChannelNormalSummary | state
  }

  /** Reads back, from a channel interrupt-enable word, which classes it
      enables. This is the independent decoding the encoders are checked
      against. */
  function WantedFromEnables(mac: bv32, channel: bv32): (r: Wanted)
    ensures r & !KnownClasses == 0
  {
    (if mac & MacLinkStatus != 0 then InterruptsState else 0)
    | (if channel & ChannelRx != 0 then InterruptsRx else 0)
    | (if channel & ChannelTx != 0 then InterruptsTx else 0)
  }

  /** Decoding the two programmed words recovers exactly the meaningful part
      of the wanted mask, so two masks that differ in a known class never
      program the same registers. */
  lemma EnablesRoundTrip(wanted: Wanted)
    ensures WantedFromEnables(MakeMacInterruptEnable(wanted), MakeChannelInterruptEnable(wanted))
         == wanted & KnownClasses
  {
  }

  /** The encoders only see the known classes: bits outside them never change
      what is programmed. */
  lemma EnablesIgnoreUnknownBits(a: Wanted, b: Wanted)
    requires a & KnownClasses == b & KnownClasses
    ensures MakeMacInterruptEnable(a) == MakeMacInterruptEnable(b)
    ensures MakeChannelInterruptEnable(a) == MakeChannelInterruptEnable(b)
  {
    assert (a & InterruptsState != 0) == (b & InterruptsState != 0) by {
      assert a & InterruptsState == (a & KnownClasses) & InterruptsState;
      assert b & InterruptsState == (b & KnownClasses) & InterruptsState;
    }
    assert (a & InterruptsRx != 0) == (b & InterruptsRx != 0) by {
      assert a & InterruptsRx == (a & KnownClasses) & InterruptsRx;
      assert b & InterruptsRx == (b & KnownClasses) & InterruptsRx;
    }
    assert (a & InterruptsTx != 0) == (b & InterruptsTx != 0) by {
      assert a & InterruptsTx == (a & KnownClasses) & InterruptsTx;
      assert b & InterruptsTx == (b & KnownClasses) & InterruptsTx;
    }
  }
}
