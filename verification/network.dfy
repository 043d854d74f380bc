/**
 `Network`: the iced network component. A tick finds the configured
 interface, looks up its addresses and, when it has any, records its
 counters and speeds and pushes the speeds, scaled to the graph maxima, onto
 the two histories. Messages also assign the public address and copy
 addresses to the clipboard.
 */
module Network {
  import opened Wrappers
  import opened Seqs
  import opened Text
  import opened Machine
  import opened History
  import opened NetworkCommon

  datatype Props = Props(
    updateInterval: nat,
    publicIpUpdateInterval: Option<nat>,
    maxDownloadBytesPerSec: nat,
    maxUploadBytesPerSec: nat)

  datatype Live = Live(
    networkName: string,
    localIps: seq<IpAddr>,
    publicIp: Option<IpAddr>,
    totalReceived: nat,
    totalTransmitted: nat,
    uploadSpeed: Ratio,
    downloadSpeed: Ratio)

  /** `NetworkLiveProps::default()`. */
  const DefaultLive := Live("", [], None, 0, 0, Finite(0.0), Finite(0.0))

  datatype Component = Component(live: Live, downloadHistory: Queue<Ratio>, uploadHistory: Queue<Ratio>) {
    ghost predicate Valid() {
      downloadHistory.Valid() && uploadHistory.Valid()
    }
  }

  const AddressQueryFailed := "called `Result::unwrap()` on an `Err` value: local_ip_address::Error"

  /** `get_local_ips`: the addresses of the interface with exactly this name. */
  function LocalIps(table: seq<AddrEntry>, networkName: string): (ips: seq<IpAddr>)
    ensures forall e :: e in table && e.name == networkName ==> e.ip in ips
    ensures forall k :: 0 <= k < |ips| ==> AddrEntry(networkName, ips[k]) in table
  {
    var keep := (name: string) => name == networkName;
    var ips := AddressesWhere(table, keep);
    AddressesWhereSpec(table, keep);
    assert forall k :: 0 <= k < |ips| ==> exists e :: e in table && e.name == networkName && e.ip == ips[k];
    ips
  }

  /**
   `update_data`, after sysinfo's refresh produced `interfaces`. `table` is
   the OS address table, `None` when querying it failed.
   */
  function UpdateData(c: Component, props: Props, interfaces: seq<Interface>, table: Option<seq<AddrEntry>>,
                      matches: string -> bool): (o: Outcome<Component>)
    requires c.Valid()
    ensures o.Done? ==> o.value.Valid()
    ensures FirstMatching(interfaces, matches).None? ==> o == Done(c)
    ensures FirstMatching(interfaces, matches).Some? && table.None? ==> o == Panic(AddressQueryFailed)
    ensures FirstMatching(interfaces, matches).Some? && table.Some? ==>
      var iface := FirstMatching(interfaces, matches).value;
      var ips := LocalIps(table.value, iface.name);
      && o.Done?
      && o.value.live.localIps == ips
      && o.value.live.publicIp == c.live.publicIp
      && (|ips| == 0 ==> o.value == c.(live := c.live.(localIps := [])))
      && (|ips| > 0 ==>
            && o.value.live.networkName == iface.name
            && o.value.live.totalReceived == iface.totalReceived
            && o.value.live.totalTransmitted == iface.totalTransmitted
            && o.value.live.downloadSpeed == Divide(iface.received as real, props.updateInterval as real)
            && o.value.live.uploadSpeed == Divide(iface.transmitted as real, props.updateInterval as real)
            && o.value.downloadHistory == Push(c.downloadHistory, DivideRatio(o.value.live.downloadSpeed, props.maxDownloadBytesPerSec as real))
            && o.value.uploadHistory == Push(c.uploadHistory, DivideRatio(o.value.live.uploadSpeed, props.maxUploadBytesPerSec as real)))
  {
    match FirstMatching(interfaces, matches)
    case None => Done(c)
    case Some(iface) =>
      match table
      case None => Panic(AddressQueryFailed)
      case Some(rows) =>
        var ips := LocalIps(rows, iface.name);
        if |ips| == 0 then Done(c.(live := c.live.(localIps := ips)))
        else
          var down := Divide(iface.received as real, props.updateInterval as real);
          var up := Divide(iface.transmitted as real, props.updateInterval as real);
          var live := c.live.(localIps := ips, networkName := iface.name,
                              totalReceived := iface.totalReceived, totalTransmitted := iface.totalTransmitted,
                              downloadSpeed := down, uploadSpeed := up);
          Done(Component(live,
                         Push(c.downloadHistory, DivideRatio(down, props.maxDownloadBytesPerSec as real)),
                         Push(c.uploadHistory, DivideRatio(up, props.maxUploadBytesPerSec as real))))
  }

  /** With a positive interval and graph maxima, the pushed values are the speeds as fractions of the maxima. */
  lemma PushedFractions(c: Component, props: Props, interfaces: seq<Interface>, rows: seq<AddrEntry>, matches: string -> bool)
    requires c.Valid() && c.downloadHistory.capacity > 0
    requires props.updateInterval > 0 && props.maxDownloadBytesPerSec > 0
    requires FirstMatching(interfaces, matches).Some?
    requires |LocalIps(rows, FirstMatching(interfaces, matches).value.name)| > 0
    ensures var iface := FirstMatching(interfaces, matches).value;
      var next := UpdateData(c, props, interfaces, Some(rows), matches).value;
      && next.downloadHistory.items[0].Finite?
      && next.downloadHistory.items[0].value * (props.updateInterval * props.maxDownloadBytesPerSec) as real
         == iface.received as real
  {
    var iface := FirstMatching(interfaces, matches).value;
    var next := UpdateData(c, props, interfaces, Some(rows), matches).value;
    var down := Divide(iface.received as real, props.updateInterval as real);
    var frac := iface.received as real / props.updateInterval as real / props.maxDownloadBytesPerSec as real;
    var pushed := DivideRatio(down, props.maxDownloadBytesPerSec as real);
    assert pushed == Finite(frac);
    assert next.downloadHistory == Push(c.downloadHistory, pushed);
    assert next.downloadHistory.items[0] == pushed by {
      assert ([pushed] + c.downloadHistory.items)[0] == pushed;
    }
    FractionScalesBack(iface.received, props.updateInterval, props.maxDownloadBytesPerSec);
  }

  lemma FractionScalesBack(amount: nat, interval: nat, max: nat)
    requires interval > 0 && max > 0
    ensures amount as real / interval as real / max as real * (interval * max) as real == amount as real
  {
    var speed := amount as real / interval as real;
    var frac := speed / max as real;
    assert (interval * max) as real == interval as real * max as real;
    assert frac * max as real == speed;
    assert speed * interval as real == amount as real;
  }

  /** The messages the component handles. */
  datatype Message =
    | NetworkTick
    | WanIpTick
    | WanIpAssign(result: Option<IpAddr>)
    | WanIpClick
    | LocalIpClick

  /** What handling a message asks the runtime to do. */
  datatype Effect = NoEffect | LookUpPublicIp | WriteClipboard(text: string)

  datatype Handled = Handled(component: Component, effect: Effect)

  /**
   `update`. A tick's sysinfo refresh and address table are inputs; the
   public-address lookup is an effect whose answer comes back as
   `WanIpAssign`.
   */
  function Update(c: Component, props: Props, message: Message, interfaces: seq<Interface>,
                  table: Option<seq<AddrEntry>>, matches: string -> bool): (o: Outcome<Handled>)
    requires c.Valid()
    ensures message.NetworkTick? ==> (o.Done? <==> UpdateData(c, props, interfaces, table, matches).Done?)
    ensures !message.NetworkTick? ==> o.Done?
    ensures o.Done? && !message.NetworkTick? && !message.WanIpAssign? ==> o.value.component == c
    ensures message.WanIpAssign? ==> o.value.component == c.(live := c.live.(publicIp := message.result))
    ensures message.WanIpTick? ==> o.value.effect == LookUpPublicIp
    ensures message.WanIpClick? ==>
              o.value.effect == (if c.live.publicIp.Some? then WriteClipboard(Show(c.live.publicIp.value)) else NoEffect)
    ensures message.LocalIpClick? ==> o.value.effect == WriteClipboard(Join(Map(c.live.localIps, Show), '\n'))
  {
    match message
    case NetworkTick =>
      (match UpdateData(c, props, interfaces, table, matches)
       case Panic(r) => Panic(r)
       case Done(next) => Done(Handled(next, NoEffect)))
    case WanIpTick => Done(Handled(c, LookUpPublicIp))
    case WanIpAssign(result) => Done(Handled(c.(live := c.live.(publicIp := result)), NoEffect))
    case WanIpClick =>
      Done(Handled(c, if c.live.publicIp.Some? then WriteClipboard(Show(c.live.publicIp.value)) else NoEffect))
    case LocalIpClick => Done(Handled(c, WriteClipboard(Join(Map(c.live.localIps, Show), '\n'))))
  }

  /** A timer subscription: every `seconds`, deliver `message`. */
  datatype Every = Every(seconds: nat, message: Message)

  /** `subscription`. */
  function Subscriptions(c: Component, props: Props): (subs: seq<Every>)
    ensures Every(props.updateInterval, NetworkTick) in subs
    ensures (exists k :: 0 <= k < |subs| && subs[k].message == WanIpTick)
            <==> props.publicIpUpdateInterval.Some? && c.live.publicIp.None?
    ensures forall k :: 0 <= k < |subs| && subs[k].message == WanIpTick ==>
              subs[k].seconds == props.publicIpUpdateInterval.value
  {
    var tick := [Every(props.updateInterval, NetworkTick)];
    if props.publicIpUpdateInterval.Some? && c.live.publicIp.None? then
      var subs := tick + [Every(props.publicIpUpdateInterval.value, WanIpTick)];
      assert subs[1].message == WanIpTick;
      subs
    else tick
  }

  /**
   Once an address is assigned the lookup timer stops; a failed lookup
   (`None`) starts it again.
   */
  lemma PollingStopsOnceAssigned(c: Component, props: Props, ip: IpAddr)
    requires c.Valid()
    ensures var next := Update(c, props, WanIpAssign(Some(ip)), [], None, (s: string) => false).value.component;
      forall k :: 0 <= k < |Subscriptions(next, props)| ==> Subscriptions(next, props)[k].message != WanIpTick
    ensures var next := Update(c, props, WanIpAssign(None), [], None, (s: string) => false).value.component;
      props.publicIpUpdateInterval.Some? ==> Every(props.publicIpUpdateInterval.value, WanIpTick) in Subscriptions(next, props)
  {
  }

  /** The top of `view`: disconnected, or the addresses it lists. */
  datatype View = Disconnected | Connected(wanIp: string, interfaceLabel: string, localIps: string)

  function Render(live: Live): (v: View)
    ensures v.Disconnected? <==> |live.localIps| == 0
    ensures v.Connected? ==> ParseIpList(v.localIps) == Some(Filter(live.localIps, IsV4))
  {
    LocalIpsRoundTrip(live.localIps);
    if |live.localIps| == 0 then Disconnected
    else Connected(if live.publicIp.Some? then Show(live.publicIp.value) else "",
                   live.networkName + " IP",
                   LocalIpsText(live.localIps))
  }

  /**
   After any tick that found the interface, the view says "Disconnected"
   exactly when the interface has no address; a tick that found nothing
   leaves the view as it was.
   */
  lemma DisconnectedIffNoAddress(c: Component, props: Props, interfaces: seq<Interface>, rows: seq<AddrEntry>,
                                 matches: string -> bool)
    requires c.Valid()
    ensures var next := UpdateData(c, props, interfaces, Some(rows), matches).value;
      && (FirstMatching(interfaces, matches).Some? ==>
            (Render(next.live).Disconnected? <==> |LocalIps(rows, FirstMatching(interfaces, matches).value.name)| == 0))
      && (FirstMatching(interfaces, matches).None? ==> Render(next.live) == Render(c.live))
  {
  }
}
