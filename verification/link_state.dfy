/** Link-state refresh (device.cpp, UpdateLinkState): derives speed and duplex
    from the PHY interface status and updates the MAC configuration's duplex
    and port-select fields. */
module LinkState {
  import opened Wrappers
  import opened Registers

  /** The report published to the adapter on every refresh. */
  datatype LinkReport = LinkReport(speed: nat, connected: bool, fullDuplex: bool)

  /** The outcome of one refresh: the report, the new MAC configuration, and
      whether that configuration had to be written. */
  datatype LinkUpdate = LinkUpdate(report: LinkReport, newConfig: MacConfiguration, configWritten: bool)

  /** The bit rate and port select a PHY interface speed stands for; the
      reserved code has neither. */
  function SpeedTable(speed: PhyIfSpeed): (nat, Option<PortSelectSpeed>)
  {
    match speed
    case PhyIfSpeed2_5M => (10_000_000, Some(PortSelectSpeed10M))
    case PhyIfSpeed25M => (100_000_000, Some(PortSelectSpeed100M))
    case PhyIfSpeed125M => (1_000_000_000, Some(PortSelectSpeed1000M))
    case PhyIfSpeedReserved => (0, None)
  }

  /** Bit rate a programmed port select stands for. This is the independent
      reading of the configuration the refresh is checked against. */
  function PortSelectRate(portSelect: PortSelectSpeed): (rate: nat)
    ensures rate > 0
  {
    match portSelect
    case PortSelectSpeed10M => 10_000_000
    case PortSelectSpeed100M => 100_000_000
    case PortSelectSpeed1000M => 1_000_000_000
    case PortSelectSpeed2500M => 2_500_000_000
  }

  /** One refresh. `status` is the value read from the PHY interface
      control/status register (the read that also acknowledges the link
      event) and `oldConfig` the MAC configuration read next. */
  function UpdateLinkState(status: PhyIfControlStatus, oldConfig: MacConfiguration): (r: LinkUpdate)
    // Duplex is copied into both the report and the configuration; the
    // connect state follows the link-up bit.
    ensures r.report.fullDuplex == status.fullDuplex == r.newConfig.fullDuplex
    ensures r.report.connected == status.linkUp
    // The three known interface speeds map to their rate and port select.
    ensures status.speed == PhyIfSpeed2_5M ==>
              r.report.speed == 10_000_000 && r.newConfig.portSelect == PortSelectSpeed10M
    ensures status.speed == PhyIfSpeed25M ==>
              r.report.speed == 100_000_000 && r.newConfig.portSelect == PortSelectSpeed100M
    ensures status.speed == PhyIfSpeed125M ==>
              r.report.speed == 1_000_000_000 && r.newConfig.portSelect == PortSelectSpeed1000M
    // The reserved code reports speed 0 and leaves port select unchanged.
    ensures status.speed == PhyIfSpeedReserved ==>
              r.report.speed == 0 && r.newConfig.portSelect == oldConfig.portSelect
    // Nothing outside the duplex and port-select fields changes.
    ensures r.newConfig == oldConfig.(fullDuplex := r.newConfig.fullDuplex, portSelect := r.newConfig.portSelect)
    // The configuration is written exactly when it changes.
    ensures r.configWritten <==> r.newConfig != oldConfig
  {
    var (speed, portSelect) := SpeedTable(status.speed);
    var newConfig := oldConfig.(
      fullDuplex := status.fullDuplex,
      portSelect := if portSelect.Some? then portSelect.value else oldConfig.portSelect);
    LinkUpdate(LinkReport(speed, status.linkUp, status.fullDuplex), newConfig, newConfig != oldConfig)
  }

  /** Whenever a speed is reported, it is the rate of the port select that
      ends up programmed: the report and the configuration agree. */
  lemma ReportMatchesConfig(status: PhyIfControlStatus, oldConfig: MacConfiguration)
    ensures var r := UpdateLinkState(status, oldConfig);
            r.report.speed != 0 ==> r.report.speed == PortSelectRate(r.newConfig.portSelect)
  {
  }

  /** A second refresh from the same PHY status finds nothing to write and
      reports the same thing: refreshing is idempotent. */
  lemma RefreshIdempotent(status: PhyIfControlStatus, oldConfig: MacConfiguration)
    ensures var first := UpdateLinkState(status, oldConfig);
            var second := UpdateLinkState(status, first.newConfig);
            !second.configWritten && second.newConfig == first.newConfig && second.report == first.report
  {
  }

  /** The written configuration depends on the old one only through the
      fields a refresh does not own: two configurations that differ only in
      duplex and port select end up identical after a refresh with a known
      speed. */
  lemma RefreshOverwritesLinkFields(status: PhyIfControlStatus, a: MacConfiguration, b: MacConfiguration)
    requires status.speed != PhyIfSpeedReserved
    requires a.(fullDuplex := b.fullDuplex, portSelect := b.portSelect) == b
    ensures UpdateLinkState(status, a).newConfig == UpdateLinkState(status, b).newConfig
  {
  }
}
