/**
 What the two network widgets share: the interface counters sysinfo
 reports, the (interface name, address) table of the OS, the address type
 and the space-separated IPv4 list both widgets display.
 */
module NetworkCommon {
  import opened Wrappers
  import opened Seqs
  import opened Text

  type Octet = x: nat | x < 256

  /**
   `std::net::IpAddr`. An IPv6 address is kept as its display text: the
   model never looks inside it.
   */
  datatype IpAddr = V4(a: Octet, b: Octet, c: Octet, d: Octet) | V6(text: string)

  predicate IsV4(ip: IpAddr) {
    ip.V4?
  }

  /** `ip.to_string()`: dotted decimal for IPv4. */
  function Show(ip: IpAddr): string {
    match ip
    case V4(a, b, c, d) => Join([NatToString(a), NatToString(b), NatToString(c), NatToString(d)], '.')
    case V6(text) => text
  }

  function ParseOctet(s: string): (o: Option<Octet>)
    ensures o.Some? ==> |s| > 0 && AllDigits(s) && o.value == DecimalValue(s)
  {
    if |s| > 0 && AllDigits(s) && DecimalValue(s) < 256 then Some(DecimalValue(s)) else None
  }

  /** Reads dotted-decimal IPv4 text back. */
  function ParseIpv4(s: string): (o: Option<IpAddr>)
    ensures o.Some? ==> o.value.V4?
  {
    var parts := SplitOn(s, '.');
    if |parts| != 4 then None
    else
      match (ParseOctet(parts[0]), ParseOctet(parts[1]), ParseOctet(parts[2]), ParseOctet(parts[3]))
      case (Some(a), Some(b), Some(c), Some(d)) => Some(V4(a, b, c, d))
      case _ => None
  }

  lemma OctetRoundTrip(x: Octet)
    ensures ParseOctet(NatToString(x)) == Some(x)
  {
    NatToStringRoundTrip(x);
  }

  /** IPv4 text reads back as the address it shows. */
  lemma Ipv4RoundTrip(ip: IpAddr)
    requires ip.V4?
    ensures ParseIpv4(Show(ip)) == Some(ip)
    ensures ' ' !in Show(ip) && |Show(ip)| > 0
  {
    var parts := [NatToString(ip.a), NatToString(ip.b), NatToString(ip.c), NatToString(ip.d)];
    forall i | 0 <= i < 4
      ensures '.' !in parts[i] && ' ' !in parts[i]
    {
      DigitsAvoid(parts[i], '.');
      DigitsAvoid(parts[i], ' ');
    }
    SplitJoinRoundTrip(parts, '.');
    JoinAvoids(parts, '.', ' ');
    OctetRoundTrip(ip.a);
    OctetRoundTrip(ip.b);
    OctetRoundTrip(ip.c);
    OctetRoundTrip(ip.d);
    assert |Join(parts, '.')| >= |parts[0]|;
  }

  /** The local-address label: the IPv4 addresses only, space-joined. */
  function LocalIpsText(ips: seq<IpAddr>): string {
    Join(Map(Filter(ips, IsV4), Show), ' ')
  }

  function ParseEach(parts: seq<string>): (o: Option<seq<IpAddr>>)
    ensures o.Some? ==> |o.value| == |parts|
  {
    if |parts| == 0 then Some([])
    else
      match (ParseIpv4(parts[0]), ParseEach(parts[1..]))
      case (Some(ip), Some(rest)) => Some([ip] + rest)
      case _ => None
  }

  /** Reads a space-separated IPv4 list back; the empty text is the empty list. */
  function ParseIpList(s: string): Option<seq<IpAddr>> {
    if |s| == 0 then Some([]) else ParseEach(SplitOn(s, ' '))
  }

  lemma {:induction false} ParseEachShown(v4s: seq<IpAddr>)
    requires forall i :: 0 <= i < |v4s| ==> v4s[i].V4?
    ensures ParseEach(Map(v4s, Show)) == Some(v4s)
  {
    if |v4s| > 0 {
      Ipv4RoundTrip(v4s[0]);
      assert Map(v4s, Show)[1..] == Map(v4s[1..], Show);
      ParseEachShown(v4s[1..]);
      assert [v4s[0]] + v4s[1..] == v4s;
    }
  }

  /** The label lists exactly the IPv4 addresses, in order: reading it back gives them. */
  lemma {:induction false} LocalIpsRoundTrip(ips: seq<IpAddr>)
    ensures ParseIpList(LocalIpsText(ips)) == Some(Filter(ips, IsV4))
  {
    var v4s := Filter(ips, IsV4);
    var parts := Map(v4s, Show);
    forall i | 0 <= i < |parts|
      ensures ' ' !in parts[i] && |parts[i]| > 0
    {
      Ipv4RoundTrip(v4s[i]);
    }
    ParseEachShown(v4s);
    if |parts| > 0 {
      SplitJoinRoundTrip(parts, ' ');
      assert |Join(parts, ' ')| >= |parts[0]|;
    }
  }

  /** sysinfo's counters for one interface; `received`/`transmitted` are since the last refresh. */
  datatype Interface = Interface(
    name: string,
    received: nat,
    transmitted: nat,
    totalReceived: nat,
    totalTransmitted: nat)

  /** One row of `list_afinet_netifas`. */
  datatype AddrEntry = AddrEntry(name: string, ip: IpAddr)

  /** The first interface, in sysinfo's order, whose name the interface pattern matches. */
  function FirstMatching(interfaces: seq<Interface>, matches: string -> bool): (r: Option<Interface>)
    ensures r.None? <==> forall i :: 0 <= i < |interfaces| ==> !matches(interfaces[i].name)
    ensures r.Some? ==> exists i :: 0 <= i < |interfaces| && interfaces[i] == r.value && matches(r.value.name)
                          && forall j :: 0 <= j < i ==> !matches(interfaces[j].name)
  {
    Find(interfaces, (i: Interface) => matches(i.name))
  }

  /** `filter_map` over the address table: the addresses of the rows whose interface name `keep` accepts, in table order. */
  function AddressesWhere(table: seq<AddrEntry>, keep: string -> bool): (ips: seq<IpAddr>)
    ensures |ips| <= |table|
  {
    if |table| == 0 then []
    else
      var rest := AddressesWhere(table[1..], keep);
      if keep(table[0].name) then [table[0].ip] + rest else rest
  }

  /** Whether `keep` accepts a row's interface name. */
  function RowAccepted(keep: string -> bool): AddrEntry -> bool {
    (e: AddrEntry) => keep(e.name)
  }

  function IpOf(e: AddrEntry): IpAddr {
    e.ip
  }

  /** The recursion is `filter` on the name, then `map` to the address. */
  lemma {:induction false} AddressesWhereIsFilterMap(table: seq<AddrEntry>, keep: string -> bool)
    ensures AddressesWhere(table, keep) == Map(Filter(table, RowAccepted(keep)), IpOf)
  {
    if |table| > 0 {
      AddressesWhereIsFilterMap(table[1..], keep);
      var rest := Filter(table[1..], RowAccepted(keep));
      if keep(table[0].name) {
        assert Map([table[0]] + rest, IpOf)[1..] == Map(rest, IpOf);
      }
    }
  }

  /**
   The collected addresses are exactly those of the accepted rows, and
   there are none exactly when no row is accepted.
   */
  lemma AddressesWhereSpec(table: seq<AddrEntry>, keep: string -> bool)
    ensures var ips := AddressesWhere(table, keep);
      && (forall k :: 0 <= k < |ips| ==> exists e :: e in table && keep(e.name) && e.ip == ips[k])
      && (forall e :: e in table && keep(e.name) ==> e.ip in ips)
      && (|ips| == 0 <==> forall e :: e in table ==> !keep(e.name))
  {
    AddressesWhereIsFilterMap(table, keep);
    AddressesSound(table, keep);
    AddressesComplete(table, keep);
  }

  lemma AddressesSound(table: seq<AddrEntry>, keep: string -> bool)
    requires AddressesWhere(table, keep) == Map(Filter(table, RowAccepted(keep)), IpOf)
    ensures var ips := AddressesWhere(table, keep);
      forall k :: 0 <= k < |ips| ==> exists e :: e in table && keep(e.name) && e.ip == ips[k]
  {
    var ips := AddressesWhere(table, keep);
    var rows := Filter(table, RowAccepted(keep));
    forall k | 0 <= k < |ips|
      ensures exists e :: e in table && keep(e.name) && e.ip == ips[k]
    {
      assert rows[k] in table && RowAccepted(keep)(rows[k]);
      assert ips[k] == rows[k].ip;
    }
  }

  lemma AddressesComplete(table: seq<AddrEntry>, keep: string -> bool)
    requires AddressesWhere(table, keep) == Map(Filter(table, RowAccepted(keep)), IpOf)
    ensures var ips := AddressesWhere(table, keep);
      forall e :: e in table && keep(e.name) ==> e.ip in ips
  {
    var ips := AddressesWhere(table, keep);
    var rows := Filter(table, RowAccepted(keep));
    forall e | e in table && keep(e.name)
      ensures e.ip in ips
    {
      var i :| 0 <= i < |table| && table[i] == e;
      assert RowAccepted(keep)(table[i]);
      var j :| 0 <= j < |rows| && rows[j] == e;
      assert ips[j] == e.ip;
    }
  }
}
