/**
 * The nmstate compiler of network.go as it runs: checks in order, an interface and a state
 * filled in step by step. A method answers None, or false, where the code returns an error.
 */
module NMState {
  import opened Wrappers
  import opened Net
  import opened InterfaceRules

  // nmInterface while it is being filled in.
  class Draft {
    const name: string
    const kind: string
    const mtu: Option<int>
    var ipv4: Option<NMIPStack>
    var ipv6: Option<NMIPStack>

    constructor (name: string, kind: string, mtu: Option<int>)
      ensures this.name == name && this.kind == kind && this.mtu == mtu && ipv4.None? && ipv6.None?
    {
      this.name, this.kind, this.mtu := name, kind, mtu;
      ipv4, ipv6 := None, None;
    }

    method ApplyStaticAddress(net: NetText, c: InterfaceConfig) returns (ok: bool)
      requires ipv4.None? && ipv6.None? && (c.ipAddress == "" <==> c.subnet == "")
      modifies this
      ensures ok <==> ValidAddress(net, c)
      ensures ok ==> ipv4 == StaticStack(net, c, true) && ipv6 == StaticStack(net, c, false)
    {
      if c.ipAddress == "" { return true; }
      var address := ParseInterfaceAddress(net, c.ipAddress, c.subnet);
      if address.None? { return false; }
      var (bits, prefix) := address.value;
      var stack := NMIPStack(true, false, None, "", [NMAddress(net.showIP(Canonical(bits)), prefix)]);
      if To4(bits).Some? {
        ipv4 := Some(stack);
      } else {
        ipv6 := Some(stack);
      }
      ok := true;
    }

    method ApplyIPv4Settings(c: InterfaceConfig) returns (ok: bool)
      modifies this`ipv4
      ensures var how := T.TrimSpace(c.ipv4Method);
              && (ok <==> ValidMethod(old(ipv4), how, IPv4MethodStack(how)))
              && (ok ==> ipv4 == FamilyStack(old(ipv4), how, IPv4MethodStack(how)))
    {
      var how := T.TrimSpace(c.ipv4Method);
      hide T.TrimSpace;
      if how == "" { return true; }
      if ipv4.Some? { return false; }
      var stack := IPv4MethodStack(how);
      if stack.None? { return false; }
      ipv4 := stack;
      ok := true;
    }

    method ApplyIPv6Settings(c: InterfaceConfig) returns (ok: bool)
      modifies this`ipv6
      ensures var how, mode := T.TrimSpace(c.ipv6Method), T.TrimSpace(c.ipv6AddrGenMode);
              var stack := FamilyStack(old(ipv6), how, IPv6MethodStack(how));
              && (ok <==> ValidMethod(old(ipv6), how, IPv6MethodStack(how)) && ValidGenMode(stack, mode))
              && (ok ==> ipv6 == WithGenMode(stack, mode))
    {
      var how, mode := T.TrimSpace(c.ipv6Method), T.TrimSpace(c.ipv6AddrGenMode);
      hide T.TrimSpace, AddrGenMode, IPv6MethodStack;
      if how != "" {
        if ipv6.Some? { return false; }
        var stack := IPv6MethodStack(how);
        if stack.None? { return false; }
        ipv6 := stack;
      }
      if mode != "" {
        if !AddrGenMode(mode) { return false; }
        if ipv6.None? || !ipv6.value.enabled { return false; }
        ipv6 := Some(ipv6.value.(addrGenMode := mode));
      }
      ok := true;
    }
  }

  method ParseInterfaceAddress(net: NetText, address: string, subnet: string) returns (r: Option<(Bits, nat)>)
    ensures r == StaticAddress(net, address, subnet)
  {
    hide NetContains;
    var ip := net.parseAddr(address);
    if ip.None? { return None; }
    var cidr := net.parseCIDR(subnet);
    if cidr.None? { return None; }
    if !NetContains(cidr.value, ip.value.bits) { return None; }
    r := Some((ip.value.bits, cidr.value.len));
  }

  method InterfaceVLAN(c: InterfaceConfig, kind: string) returns (ok: bool, vlan: Option<NMVLAN>)
    requires kind == KindOf(c)
    ensures ok <==> ValidVLAN(c)
    ensures ok ==> vlan == VLANOf(c)
  {
    hide T.TrimSpace, KindOf;
    ok, vlan := false, None;
    if kind == "vlan" {
      if c.vlan.None? { return; }
      var base := T.TrimSpace(c.vlan.value.baseInterface);
      if base == "" { return; }
      if c.vlan.value.id < 1 || c.vlan.value.id > 4094 { return; }
      return true, Some(NMVLAN(base, c.vlan.value.id));
    } else if c.vlan.Some? {
      return;
    }
    ok := true;
  }

  // The members of a bond, checked one by one against those seen so far.
  method BondPorts(name: string, raw: seq<string>) returns (ok: bool, ports: seq<string>, seen: set<string>)
    ensures ok <==> ValidMembers(name, Trimmed(raw))
    ensures ok ==> ports == Trimmed(raw) && seen == set p | p in ports
  {
    hide T.TrimSpace;
    ok, ports, seen := false, [], {};
    for i := 0 to |raw|
      invariant ports == Trimmed(raw)[..i] && seen == set p | p in ports
      invariant ValidMembers(name, ports)
    {
      var port := T.TrimSpace(raw[i]);
      assert Trimmed(raw)[..i + 1] == ports + [port] && Trimmed(raw)[i] == port;
      if port == "" { return; }
      if port == name { return; }
      if port in seen {
        SeenTwice(Trimmed(raw), i);
        return;
      }
      AddMember(name, ports, port);
      seen := seen + {port};
      ports := ports + [port];
    }
    ok := true;
  }

  lemma SeenTwice(ports: seq<string>, i: nat)
    requires i < |ports| && ports[i] in ports[..i]
    ensures !Distinct(ports)
  {
    var j: nat :| j < i && ports[j] == ports[i];
  }

  lemma AddMember(name: string, ports: seq<string>, port: string)
    requires ValidMembers(name, ports) && port != "" && port != name && port !in ports
    ensures ValidMembers(name, ports + [port])
  {
  }

  method BuildBondOptions(bond: BondConfig, mode: string, ports: set<string>)
    returns (ok: bool, options: Option<NMBondOptions>)
    ensures var primary := T.TrimSpace(bond.primary);
            && (ok <==> InRange(bond.miimon, 0) && (primary != "" ==> PrimaryMode(mode) && primary in ports))
            && (ok ==> options == if bond.miimon.None? && primary == "" then None
              else Some(NMBondOptions(bond.miimon, primary)))
  {
    var primary := T.TrimSpace(bond.primary);
    hide T.TrimSpace, PrimaryMode;
    ok, options := false, None;
    if bond.miimon.Some? {
      if bond.miimon.value < 0 || bond.miimon.value > MAX_U32 { return; }
      options := Some(NMBondOptions(bond.miimon, ""));
    }
    if primary != "" {
      if !PrimaryMode(mode) { return; }
      if primary !in ports { return; }
      if options.None? {
        options := Some(NMBondOptions(None, ""));
      }
      options := Some(options.value.(primary := primary));
    }
    ok := true;
  }

  method BuildBond(name: string, bond: BondConfig) returns (r: Option<NMLinkAggregation>)
    ensures r.Some? <==> ValidBondSettings(name, bond)
    ensures r.Some? ==> r.value == BondOf(bond)
  {
    var mode := T.TrimSpace(bond.mode);
    hide T.TrimSpace, BondMode, PrimaryMode, ValidMembers, Trimmed;
    if mode == "" {
      NoEmptyMode();
      return None;
    }
    if !BondMode(mode) { return None; }
    if |bond.ports| == 0 { return None; }
    var good, ports, seen := BondPorts(name, bond.ports);
    if !good { return None; }
    var ok, options := BuildBondOptions(bond, mode, seen);
    if !ok { return None; }
    r := Some(NMLinkAggregation(mode, ports, options));
  }

  lemma NoEmptyMode()
    ensures !BondMode("")
  {
  }

  method InterfaceBond(c: InterfaceConfig, kind: string) returns (ok: bool, bond: Option<NMLinkAggregation>)
    requires kind == KindOf(c)
    ensures ok <==> ValidBond(c)
    ensures ok ==> bond == if c.bond.None? then None else Some(BondOf(c.bond.value))
  {
    hide KindOf, ValidBondSettings, BondOf;
    ok, bond := false, None;
    if kind == "bond" {
      if c.bond.None? { return; }
      bond := BuildBond(c.name, c.bond.value);
      return bond.Some?, bond;
    } else if c.bond.Some? {
      return;
    }
    ok := true;
  }

  method BuildNMInterface(net: NetText, c: InterfaceConfig) returns (r: Option<NMInterface>)
    ensures r.Some? <==> ValidInterface(net, c)
    ensures r.Some? ==> r.value == InterfaceOf(net, c)
  {
    hide T.TrimSpace, ValidVLAN, ValidBond, StaticStack, IPv4MethodStack, IPv6MethodStack, VLANOf, BondOf, KindOf,
      StaticAddress;
    if c.name == "" { return None; }
    if !InRange(c.mtu, 1) { return None; }
    if !InRange(c.txQueueLen, 0) { return None; }
    if (c.ipAddress == "") != (c.subnet == "") { return None; }
    var kind := KindOf(c);
    var draft := new Draft(c.name, kind, c.mtu);
    var goodVLAN, vlan := InterfaceVLAN(c, kind);
    if !goodVLAN { return None; }
    var goodBond, bond := InterfaceBond(c, kind);
    if !goodBond { return None; }
    var ok := draft.ApplyStaticAddress(net, c);
    if !ok { return None; }
    ok := draft.ApplyIPv4Settings(c);
    if !ok { return None; }
    ok := draft.ApplyIPv6Settings(c);
    if !ok { return None; }
    r := Some(NMInterface(draft.name, draft.kind, draft.mtu, draft.ipv4, draft.ipv6, vlan, bond));
  }

  method GatewayRoute(net: NetText, c: InterfaceConfig) returns (ok: bool, route: Option<NMRoute>)
    ensures ok <==> ValidGateway(net, c)
    ensures ok ==> GatewayRoutes(net, c) == if route.Some? then [route.value] else []
  {
    hide To4, Canonical;
    if c.gateway == "" { return true, None; }
    var gateway := net.parseAddr(c.gateway);
    if gateway.None? { return false, None; }
    var destination := "0.0.0.0/0";
    if To4(gateway.value.bits).None? {
      destination := "::/0";
    }
    return true, Some(NMRoute(destination, net.showIP(Canonical(gateway.value.bits)), c.name, None, None));
  }

  method BuildNMRoute(net: NetText, route: RouteConfig) returns (r: Option<NMRoute>)
    ensures r.Some? <==> ValidRoute(net, route)
    ensures r.Some? ==> r.value == RouteOf(net, route)
  {
    hide T.TrimSpace, Masked;
    var destination := T.TrimSpace(route.destination);
    if destination == "" { return None; }
    var prefix := net.parsePrefix(destination);
    if prefix.None? { return None; }
    var device := T.TrimSpace(route.nextHopInterface);
    if device == "" { return None; }
    var built := NMRoute(net.show(Network(Masked(prefix.value))), "", device, None, None);
    var nextHop := T.TrimSpace(route.nextHopAddress);
    if nextHop != "" {
      var gateway := net.parseAddr(nextHop);
      if gateway.None? { return None; }
      if Is4(gateway.value.bits) != Is4(prefix.value.bits) { return None; }
      built := built.(nextHopAddress := net.show(Host(gateway.value)));
    }
    if !InRange(route.tableID, 0) { return None; }
    built := built.(tableID := route.tableID);
    if !InRange(route.metric, 0) { return None; }
    built := built.(metric := route.metric);
    r := Some(built);
  }

  // First-seen order, without repetitions.
  function FirstSeen(texts: seq<string>): (r: seq<string>)
    ensures forall x :: x in r <==> x in texts
  {
    if texts == [] then []
    else
      var n := |texts| - 1;
      var before := FirstSeen(texts[..n]);
      assert texts == texts[..n] + [texts[n]];
      if texts[n] in before then before else before + [texts[n]]
  }

  // Where a text first occurs.
  function FirstAt(texts: seq<string>, x: string): (i: nat)
    requires x in texts
    ensures i < |texts| && texts[i] == x && x !in texts[..i]
  {
    if texts[0] == x then 0 else assert texts == [texts[0]] + texts[1..]; 1 + FirstAt(texts[1..], x)
  }

  // That is all there is to it: the same texts, each once, in the order they first occur.
  lemma {:induction false} FirstSeenInOrder(texts: seq<string>)
    ensures var r := FirstSeen(texts);
            && Distinct(r)
            && forall i, j | 0 <= i < j < |r| :: FirstAt(texts, r[i]) < FirstAt(texts, r[j])
  {
    if texts != [] {
      var n := |texts| - 1;
      FirstSeenInOrder(texts[..n]);
      var before := FirstSeen(texts[..n]);
      forall x | x in before ensures FirstAt(texts, x) == FirstAt(texts[..n], x) {
        FirstAtPrefix(texts, n, x);
      }
      if texts[n] !in before {
        FirstAtIs(texts, texts[n], n);
      }
    }
  }

  lemma FirstAtIs(texts: seq<string>, x: string, i: nat)
    requires i < |texts| && texts[i] == x && x !in texts[..i]
    ensures x in texts && FirstAt(texts, x) == i
  {
    var k := FirstAt(texts, x);
    InPrefix(texts, i);
    InPrefix(texts, k);
  }

  lemma InPrefix(texts: seq<string>, n: nat)
    requires n <= |texts|
    ensures forall j | 0 <= j < n :: texts[j] in texts[..n]
  {
    forall j | 0 <= j < n ensures texts[j] in texts[..n] {
      assert texts[..n][j] == texts[j];
    }
  }

  lemma FirstAtPrefix(texts: seq<string>, n: nat, x: string)
    requires n <= |texts| && x in texts[..n]
    ensures x in texts && FirstAt(texts, x) == FirstAt(texts[..n], x) < n
  {
    var i := FirstAt(texts[..n], x);
    assert texts[i] == x && texts[..n][..i] == texts[..i];
    FirstAtIs(texts, x, i);
  }

  ghost predicate ValidEntries(net: NetText, interfaces: seq<InterfaceConfig>) {
    forall c | c in interfaces :: ValidEntry(net, c)
  }

  ghost predicate ValidRoutes(net: NetText, routes: seq<RouteConfig>) {
    forall i | 0 <= i < |routes| :: ValidRoute(net, routes[i])
  }

  // What all the entries amount to, one after the other.
  function InterfacesOf(net: NetText, interfaces: seq<InterfaceConfig>): (r: seq<NMInterface>)
    ensures |r| == |interfaces| && forall i | 0 <= i < |r| :: r[i] == InterfaceOf(net, interfaces[i])
  {
    seq(|interfaces|, i requires 0 <= i < |interfaces| => InterfaceOf(net, interfaces[i]))
  }

  ghost function AllGatewayRoutes(net: NetText, interfaces: seq<InterfaceConfig>): seq<NMRoute>
    requires ValidEntries(net, interfaces)
  {
    if interfaces == [] then []
    else
      var n := |interfaces| - 1;
      assert interfaces[n] in interfaces && forall c | c in interfaces[..n] :: c in interfaces;
      AllGatewayRoutes(net, interfaces[..n]) + GatewayRoutes(net, interfaces[n])
  }

  ghost function AllServers(net: NetText, interfaces: seq<InterfaceConfig>): seq<string>
    requires ValidEntries(net, interfaces)
  {
    if interfaces == [] then []
    else
      var n := |interfaces| - 1;
      assert interfaces[n] in interfaces && forall c | c in interfaces[..n] :: c in interfaces;
      AllServers(net, interfaces[..n]) + ServersOf(net, interfaces[n].dns)
  }

  function RoutesOf(net: NetText, routes: seq<RouteConfig>): (r: seq<NMRoute>)
    requires ValidRoutes(net, routes)
    ensures |r| == |routes| && forall i | 0 <= i < |r| :: r[i] == RouteOf(net, routes[i])
  {
    hide ValidRoute, RouteOf;
    seq(|routes|, i requires 0 <= i < |routes| && ValidRoute(net, routes[i]) => RouteOf(net, routes[i]))
  }

  // nmState while it is being filled in, with the map of DNS servers seen so far.
  class State {
    var interfaces: seq<NMInterface>
    var routes: Option<seq<NMRoute>>
    var servers: seq<string>
    var seen: set<string>

    constructor ()
      ensures interfaces == [] && routes.None? && servers == [] && seen == {}
    {
      interfaces, routes, servers, seen := [], None, [], {};
    }

    function Routes(): seq<NMRoute>
      reads this
    {
      if routes.None? then [] else routes.value
    }

    method AppendRoute(route: NMRoute)
      modifies this`routes
      ensures routes == Some(old(Routes()) + [route])
    {
      if routes.None? {
        routes := Some([]);
      }
      routes := Some(routes.value + [route]);
    }

    method AppendInterfaceDNS(net: NetText, dns: seq<string>, ghost all: seq<string>) returns (ok: bool)
      requires servers == FirstSeen(all) && seen == set x | x in servers
      modifies this`servers, this`seen
      ensures ok <==> ValidDNS(net, dns)
      ensures ok ==> servers == FirstSeen(all + ServersOf(net, dns)) && seen == set x | x in servers
    {
      hide Canonical, FirstSeen, ValidDNS, ServersOf;
      NoServersYet(net, dns, all);
      for i := 0 to |dns|
        invariant ValidDNS(net, dns[..i])
        invariant servers == FirstSeen(all + ServersOf(net, dns[..i])) && seen == set x | x in servers
      {
        var server := net.parseAddr(dns[i]);
        if server.None? {
          BadServer(net, dns, i);
          return false;
        }
        var key := net.showIP(Canonical(server.value.bits));
        FirstSeenNext(net, dns, i, all);
        if key !in seen {
          seen := seen + {key};
          servers := servers + [key];
        }
      }
      assert dns[..|dns|] == dns;
      ok := true;
    }
  }

  lemma NoServersYet(net: NetText, dns: seq<string>, all: seq<string>)
    ensures ValidDNS(net, dns[..0]) && all + ServersOf(net, dns[..0]) == all
  {
  }

  lemma BadServer(net: NetText, dns: seq<string>, i: nat)
    requires i < |dns| && net.parseAddr(dns[i]).None?
    ensures !ValidDNS(net, dns)
  {
  }

  lemma FirstSeenNext(net: NetText, dns: seq<string>, i: nat, all: seq<string>)
    requires i < |dns| && ValidDNS(net, dns[..i]) && net.parseAddr(dns[i]).Some?
    ensures ValidDNS(net, dns[..i + 1])
    ensures var key, before :=
      net.showIP(Canonical(net.parseAddr(dns[i]).value.bits)), FirstSeen(all + ServersOf(net, dns[..i]));
            FirstSeen(all + ServersOf(net, dns[..i + 1])) == if key in before then before else before + [key]
  {
    hide Canonical;
    assert dns[..i + 1][..i] == dns[..i];
    var key := net.showIP(Canonical(net.parseAddr(dns[i]).value.bits));
    var now, next := all + ServersOf(net, dns[..i]), all + ServersOf(net, dns[..i + 1]);
    assert next == now + [key];
    assert next[..|next| - 1] == now;
  }

  datatype Document = Document(interfaces: seq<NMInterface>, routes: Option<seq<NMRoute>>, servers: seq<string>)

  // The simple specification: every interface in order, the gateways' routes in interface
  // order followed by the explicit ones in config order, and the servers as first seen.
  ghost predicate Describes(net: NetText, interfaces: seq<InterfaceConfig>, routes: seq<RouteConfig>, d: Document)
    requires ValidEntries(net, interfaces) && ValidRoutes(net, routes)
  {
    && d.interfaces == InterfacesOf(net, interfaces)
    && (if d.routes.Some? then d.routes.value else []) == AllGatewayRoutes(net, interfaces) + RoutesOf(net, routes)
    && d.routes != Some([])
    && d.servers == FirstSeen(AllServers(net, interfaces))
  }

  // One interface of the first loop.
  method AddInterface(net: NetText, state: State, interfaces: seq<InterfaceConfig>, i: nat) returns (ok: bool)
    requires i < |interfaces| && ValidEntries(net, interfaces[..i])
    requires state.interfaces == InterfacesOf(net, interfaces[..i])
    requires state.Routes() == AllGatewayRoutes(net, interfaces[..i]) && state.routes != Some([])
    requires state.servers == FirstSeen(AllServers(net, interfaces[..i])) && state.seen == set x | x in state.servers
    modifies state
    ensures ok <==> ValidEntry(net, interfaces[i])
    ensures ok ==> ValidEntries(net, interfaces[..i + 1]) && state.interfaces == InterfacesOf(net, interfaces[..i + 1])
    ensures ok ==> state.Routes() == AllGatewayRoutes(net, interfaces[..i + 1]) && state.routes != Some([])
    ensures ok ==> state.servers == FirstSeen(AllServers(net, interfaces[..i + 1]))
    ensures ok ==> state.seen == set x | x in state.servers
  {
    hide ValidInterface, ValidGateway, ValidDNS, InterfaceOf, GatewayRoutes, ServersOf, FirstSeen, ValidEntries,
      AllGatewayRoutes, AllServers, InterfacesOf;
    var c := interfaces[i];
    if ValidEntry(net, c) {
      EntriesNext(net, interfaces, i);
    }
    var built := BuildNMInterface(net, c);
    if built.None? { return false; }
    state.interfaces := state.interfaces + [built.value];
    var good, route := GatewayRoute(net, c);
    if !good { return false; }
    if route.Some? {
      state.AppendRoute(route.value);
    }
    ok := state.AppendInterfaceDNS(net, c.dns, AllServers(net, interfaces[..i]));
  }

  lemma EntriesNext(net: NetText, interfaces: seq<InterfaceConfig>, i: nat)
    requires i < |interfaces| && ValidEntries(net, interfaces[..i]) && ValidEntry(net, interfaces[i])
    ensures var next, c := interfaces[..i + 1], interfaces[i];
            && ValidEntries(net, next)
            && InterfacesOf(net, next) == InterfacesOf(net, interfaces[..i]) + [InterfaceOf(net, c)]
            && AllGatewayRoutes(net, next) == AllGatewayRoutes(net, interfaces[..i]) + GatewayRoutes(net, c)
            && AllServers(net, next) == AllServers(net, interfaces[..i]) + ServersOf(net, c.dns)
  {
    hide ValidInterface, ValidGateway, ValidDNS, InterfaceOf, GatewayRoutes, ServersOf;
    assert interfaces[..i + 1][..i] == interfaces[..i] && interfaces[..i + 1] == interfaces[..i] + [interfaces[i]];
  }

  lemma InvalidEntry(net: NetText, interfaces: seq<InterfaceConfig>, i: nat)
    requires i < |interfaces| && !ValidEntry(net, interfaces[i])
    ensures !ValidEntries(net, interfaces)
  {
    assert interfaces[i] in interfaces;
  }

  lemma ValidRoutesNext(net: NetText, routes: seq<RouteConfig>, i: nat)
    requires i < |routes| && ValidRoutes(net, routes[..i]) && ValidRoute(net, routes[i])
    ensures ValidRoutes(net, routes[..i + 1])
    ensures RoutesOf(net, routes[..i + 1]) == RoutesOf(net, routes[..i]) + [RouteOf(net, routes[i])]
  {
    hide ValidRoute, RouteOf;
    assert routes[..i + 1] == routes[..i] + [routes[i]] && routes[..i + 1][..i] == routes[..i];
  }

  // The second loop.
  method AddRoutes(net: NetText, state: State, routes: seq<RouteConfig>, ghost before: seq<NMRoute>) returns (ok: bool)
    requires state.Routes() == before && state.routes != Some([])
    modifies state`routes
    ensures ok <==> ValidRoutes(net, routes)
    ensures ok ==> state.Routes() == before + RoutesOf(net, routes) && state.routes != Some([])
  {
    hide ValidRoute, RouteOf;
    assert before + RoutesOf(net, routes[..0]) == before;
    for j := 0 to |routes|
      invariant ValidRoutes(net, routes[..j])
      invariant state.Routes() == before + RoutesOf(net, routes[..j]) && state.routes != Some([])
    {
      var built := BuildNMRoute(net, routes[j]);
      if built.None? { return false; }
      ValidRoutesNext(net, routes, j);
      state.AppendRoute(built.value);
    }
    assert routes[..|routes|] == routes;
    ok := true;
  }

  // buildNMState: it fails exactly when some entry is wrong on its own.
  method BuildNMState(net: NetText, interfaces: seq<InterfaceConfig>, routes: seq<RouteConfig>)
    returns (r: Option<Document>)
    ensures r.Some? <==> ValidEntries(net, interfaces) && ValidRoutes(net, routes)
    ensures r.Some? ==> Describes(net, interfaces, routes, r.value)
  {
    hide ValidEntry, ValidRoute, ValidRoutes, RoutesOf, InterfacesOf;
    var state := new State();
    for i := 0 to |interfaces|
      invariant ValidEntries(net, interfaces[..i]) && state.interfaces == InterfacesOf(net, interfaces[..i])
      invariant state.Routes() == AllGatewayRoutes(net, interfaces[..i]) && state.routes != Some([])
      invariant state.servers == FirstSeen(AllServers(net, interfaces[..i])) && state.seen == set x | x in state.servers
    {
      hide FirstSeen, AllServers, AllGatewayRoutes, ValidEntries;
      var ok := AddInterface(net, state, interfaces, i);
      if !ok {
        InvalidEntry(net, interfaces, i);
        return None;
      }
    }
    assert interfaces[..|interfaces|] == interfaces;
    var ok := AddRoutes(net, state, routes, AllGatewayRoutes(net, interfaces));
    if !ok { return None; }
    r := Some(Document(state.interfaces, state.routes, state.servers));
  }
}
