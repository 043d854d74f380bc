/**
 `NetworkWidget`: the GTK network widget, and `NetworkWidgetPublicIp`, the
 separate public-address row. Unlike the iced component it keeps no state
 between updates: every update redraws from the current interfaces and
 address table, and sends the raw speeds to the graphs.
 */
module NetworkWidget {
  import opened Wrappers
  import opened Seqs
  import opened Text
  import opened Machine
  import opened NetworkCommon

  const AddressQueryFailed := "called `Result::unwrap()` on an `Err` value: local_ip_address::Error"

  /**
   The spacing between the two graphs: `build_graphs` spreads two graphs of
   width `width` and hands the `u32` gap to the container as an `i32`.
   */
  function GraphSpacing(containerWidth: nat, width: nat): (o: Outcome<int>)
    requires IsU32(containerWidth) && IsU32(width)
    ensures o.Done?
    ensures -I32Span <= o.value < I32Span
    ensures 2 * width <= containerWidth ==> (o.value - (containerWidth - 2 * width)) % U32Modulus == 0
    ensures 2 * width <= containerWidth && containerWidth - 2 * width < I32Span ==> o.value == containerWidth - 2 * width
    ensures containerWidth < 2 * width <= containerWidth + I32Span ==> o.value == containerWidth - 2 * width < 0
  {
    match BarSpacing(containerWidth, 2, width)
    case Panic(r) => Panic(r)
    case Done(gap) => Done(AsI32(gap))
  }

  /** `get_network`: the first interface the pattern matches. */
  function GetNetwork(interfaces: seq<Interface>, matches: string -> bool): (r: Option<Interface>)
    ensures r.Some? ==> matches(r.value.name) && r.value in interfaces
    ensures r.None? <==> forall i :: 0 <= i < |interfaces| ==> !matches(interfaces[i].name)
  {
    FirstMatching(interfaces, matches)
  }

  /**
   `get_local_ips`: the addresses of every interface the pattern matches,
   not only those of the interface `get_network` picked.
   */
  function GetLocalIps(table: seq<AddrEntry>, matches: string -> bool): (ips: seq<IpAddr>)
    ensures forall e :: e in table && matches(e.name) ==> e.ip in ips
    ensures forall k :: 0 <= k < |ips| ==> exists e :: e in table && matches(e.name) && e.ip == ips[k]
  {
    AddressesWhereSpec(table, matches);
    AddressesWhere(table, matches)
  }

  /**
   The part of the widget `update_local_ips` draws. The connected container
   and the error label are shown alternately; the interface and address
   labels are rewritten only when connected.
   */
  datatype LocalIpsView = LocalIpsView(connectedVisible: bool, errorVisible: bool, labels: Option<(string, string)>)

  function UpdateLocalIps(network: Option<Interface>, table: Option<seq<AddrEntry>>, matches: string -> bool): (o: Outcome<LocalIpsView>)
    ensures table.None? ==> o == Panic(AddressQueryFailed)
    ensures table.Some? ==>
      var connected := network.Some? && |GetLocalIps(table.value, matches)| > 0;
      && o.Done?
      && o.value.connectedVisible == connected
      && o.value.errorVisible == !connected
      && (o.value.labels.Some? <==> connected)
      && (connected ==> o.value.labels.value.0 == network.value.name
                        && ParseIpList(o.value.labels.value.1) == Some(Filter(GetLocalIps(table.value, matches), IsV4)))
  {
    match table
    case None => Panic(AddressQueryFailed)
    case Some(rows) =>
      var ips := GetLocalIps(rows, matches);
      var connected := network.Some? && |ips| > 0;
      LocalIpsRoundTrip(ips);
      Done(LocalIpsView(connected, !connected, if connected then Some((network.value.name, LocalIpsText(ips))) else None))
  }

  /** What `update_network` shows and sends: totals, and speeds in bytes per second. */
  datatype Readout = Readout(totalReceived: nat, totalTransmitted: nat, downloadSpeed: Ratio, uploadSpeed: Ratio)

  function UpdateNetwork(updateInterval: nat, iface: Interface): (r: Readout)
    ensures r.totalReceived == iface.totalReceived && r.totalTransmitted == iface.totalTransmitted
    ensures r.downloadSpeed.Finite? <==> updateInterval > 0
    ensures r.downloadSpeed.Finite? ==> r.downloadSpeed.value * updateInterval as real == iface.received as real
    ensures r.uploadSpeed.Finite? <==> updateInterval > 0
    ensures r.uploadSpeed.Finite? ==> r.uploadSpeed.value * updateInterval as real == iface.transmitted as real
  {
    Readout(iface.totalReceived, iface.totalTransmitted,
            Divide(iface.received as real, updateInterval as real),
            Divide(iface.transmitted as real, updateInterval as real))
  }

  datatype Round = Round(localIps: LocalIpsView, readout: Option<Readout>, delay: nat)

  /**
   `update`: redraw the address part, then the counters whenever an
   interface matched, connected or not, and come back after
   `update_interval`.
   */
  function Update(updateInterval: nat, interfaces: seq<Interface>, table: Option<seq<AddrEntry>>,
                  matches: string -> bool): (o: Outcome<Round>)
    ensures o.Done? <==> table.Some?
    ensures o.Done? ==>
      && o.value.delay == updateInterval
      && o.value.localIps == UpdateLocalIps(GetNetwork(interfaces, matches), table, matches).value
      && (o.value.readout.Some? <==> GetNetwork(interfaces, matches).Some?)
      && (o.value.readout.Some? ==> o.value.readout.value == UpdateNetwork(updateInterval, GetNetwork(interfaces, matches).value))
  {
    var network := GetNetwork(interfaces, matches);
    match UpdateLocalIps(network, table, matches)
    case Panic(r) => Panic(r)
    case Done(view) =>
      Done(Round(view, if network.Some? then Some(UpdateNetwork(updateInterval, network.value)) else None, updateInterval))
  }

  /** An interface with traffic but no address: shown disconnected, counters still updated. */
  lemma CountersWithoutAddress(updateInterval: nat, iface: Interface, rows: seq<AddrEntry>, matches: string -> bool)
    requires matches(iface.name)
    requires forall e :: e in rows ==> !matches(e.name)
    ensures var r := Update(updateInterval, [iface], Some(rows), matches).value;
      r.localIps.errorVisible && !r.localIps.connectedVisible && r.readout.Some?
  {
    AddressesWhereSpec(rows, matches);
    assert |GetLocalIps(rows, matches)| == 0;
  }

  /** The public-address row: its label text, and whether it is visible. */
  datatype WanRow = WanRow(visible: bool, text: Option<string>)

  /** `NetworkWidgetPublicIp::update` outcome: the new row and the next delay. */
  datatype WanRound = WanRound(row: WanRow, delay: nat)

  /** `update`: a found address replaces the label, a failed lookup keeps it; always rescheduled. */
  function UpdatePublicIp(row: WanRow, interval: nat, lookup: Option<IpAddr>): (r: WanRound)
    ensures r.delay == interval && r.row.visible == row.visible
    ensures lookup.Some? ==> r.row.text == Some(Show(lookup.value))
    ensures lookup.None? ==> r.row == row
  {
    WanRound(if lookup.Some? then row.(text := Some(Show(lookup.value))) else row, interval)
  }

  /**
   `build`: without an interval the row is hidden and nothing is polled
   (`None`); otherwise the first lookup runs and polling starts.
   */
  function BuildPublicIp(interval: Option<nat>, lookup: Option<IpAddr>): (r: Option<WanRound>)
    ensures r.None? <==> interval.None?
    ensures r.Some? ==> r.value == UpdatePublicIp(WanRow(true, None), interval.value, lookup)
  {
    if interval.None? then None else Some(UpdatePublicIp(WanRow(true, None), interval.value, lookup))
  }

  /** The row shows the last address any lookup found, however many lookups failed since. */
  lemma {:induction false} LastFoundAddressShown(row: WanRow, interval: nat, ip: IpAddr, failures: nat)
    ensures LookupsThenFailures(row, interval, ip, failures).text == Some(Show(ip))
    decreases failures
  {
    if failures > 0 {
      LastFoundAddressShown(row, interval, ip, failures - 1);
    }
  }

  /** The row after a lookup that found `ip` followed by `failures` failed ones. */
  function LookupsThenFailures(row: WanRow, interval: nat, ip: IpAddr, failures: nat): WanRow
    decreases failures
  {
    if failures == 0 then UpdatePublicIp(row, interval, Some(ip)).row
    else UpdatePublicIp(LookupsThenFailures(row, interval, ip, failures - 1), interval, None).row
  }
}
