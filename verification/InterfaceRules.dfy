/**
 * What network.go asks of a declared interface or route, and what it makes of one: the
 * entries of the nmstate document as plain values, with no order of checks or updates.
 */
module InterfaceRules {
  import opened Wrappers
  import opened Net
  import T = Text

  const MAX_U32: int := 0xFFFF_FFFF

  datatype VLANConfig = VLANConfig(baseInterface: string, id: int)

  datatype BondConfig = BondConfig(mode: string, ports: seq<string>, miimon: Option<int>, primary: string)

  datatype InterfaceConfig = InterfaceConfig(
    name: string, kind: string, ipAddress: string, subnet: string, gateway: string, dns: seq<string>,
    mtu: Option<int>, ipv4Method: string, ipv6Method: string, ipv6AddrGenMode: string,
    txQueueLen: Option<int>, vlan: Option<VLANConfig>, bond: Option<BondConfig>)

  datatype RouteConfig = RouteConfig(
    name: string, destination: string, nextHopAddress: string, nextHopInterface: string,
    tableID: Option<int>, metric: Option<int>)

  datatype NMAddress = NMAddress(ip: string, prefixLength: nat)

  datatype NMIPStack = NMIPStack(
    enabled: bool, dhcp: bool, autoconf: Option<bool>, addrGenMode: string, addresses: seq<NMAddress>)

  datatype NMVLAN = NMVLAN(baseIface: string, id: int)

  datatype NMBondOptions = NMBondOptions(miimon: Option<int>, primary: string)

  datatype NMLinkAggregation = NMLinkAggregation(mode: string, port: seq<string>, options: Option<NMBondOptions>)

  datatype NMInterface = NMInterface(
    name: string, kind: string, mtu: Option<int>, ipv4: Option<NMIPStack>, ipv6: Option<NMIPStack>,
    vlan: Option<NMVLAN>, linkAggregation: Option<NMLinkAggregation>)

  datatype NMRoute = NMRoute(
    destination: string, nextHopAddress: string, nextHopInterface: string, tableID: Option<int>, metric: Option<int>)

  // Kernel attributes of 32 bits; unset is fine.
  predicate InRange(value: Option<int>, low: int) {
    value.Some? ==> low <= value.value <= MAX_U32
  }

  function KindOf(c: InterfaceConfig): string {
    var kind := T.TrimSpace(c.kind);
    if kind == "" then "ethernet" else kind
  }

  // VLAN settings exactly for a VLAN.
  predicate ValidVLAN(c: InterfaceConfig) {
    if KindOf(c) == "vlan" then
      c.vlan.Some? && T.TrimSpace(c.vlan.value.baseInterface) != "" && 1 <= c.vlan.value.id <= 4094
    else c.vlan.None?
  }

  predicate BondMode(mode: string) {
    mode in {"balance-rr", "active-backup", "balance-xor", "broadcast", "802.3ad", "balance-tlb", "balance-alb"}
  }

  predicate PrimaryMode(mode: string) {
    mode in {"active-backup", "balance-tlb", "balance-alb"}
  }

  function Trimmed(texts: seq<string>): (r: seq<string>)
    ensures |r| == |texts|
  {
    seq(|texts|, i requires 0 <= i < |texts| => T.TrimSpace(texts[i]))
  }

  ghost predicate Distinct(texts: seq<string>) {
    forall i, j | 0 <= i < j < |texts| :: texts[i] != texts[j]
  }

  ghost predicate ValidMembers(name: string, ports: seq<string>) {
    "" !in ports && name !in ports && Distinct(ports)
  }

  ghost predicate ValidBondSettings(name: string, bond: BondConfig) {
    var mode, ports, primary := T.TrimSpace(bond.mode), Trimmed(bond.ports), T.TrimSpace(bond.primary);
    && BondMode(mode) && ports != [] && ValidMembers(name, ports) && InRange(bond.miimon, 0)
    && (primary != "" ==> PrimaryMode(mode) && primary in ports)
  }

  ghost predicate ValidBond(c: InterfaceConfig) {
    if KindOf(c) == "bond" then c.bond.Some? && ValidBondSettings(c.name, c.bond.value) else c.bond.None?
  }

  // The static address and the prefix length of its subnet, if both texts are right.
  function StaticAddress(net: NetText, ipAddress: string, subnet: string): Option<(Bits, nat)> {
    var ip, cidr := net.parseAddr(ipAddress), net.parseCIDR(subnet);
    if ip.Some? && cidr.Some? && NetContains(cidr.value, ip.value.bits) then Some((ip.value.bits, cidr.value.len))
    else None
  }

  predicate ValidAddress(net: NetText, c: InterfaceConfig) {
    if c.ipAddress == "" then c.subnet == ""
    else c.subnet != "" && StaticAddress(net, c.ipAddress, c.subnet).Some?
  }

  predicate IsIPv4(bits: Bits) {
    To4(bits).Some?
  }

  // The manual stack of one family.
  function StaticStack(net: NetText, c: InterfaceConfig, v4: bool): Option<NMIPStack> {
    var manual := if c.ipAddress == "" then None else StaticAddress(net, c.ipAddress, c.subnet);
    if manual.Some? && IsIPv4(manual.value.0) == v4 then
      Some(NMIPStack(true, false, None, "", [NMAddress(net.showIP(Canonical(manual.value.0)), manual.value.1)]))
    else None
  }

  function IPv4MethodStack(how: string): Option<NMIPStack> {
    if how == "dhcp" || how == "auto" then Some(NMIPStack(true, true, None, "", []))
    else if how == "disabled" then Some(NMIPStack(false, false, None, "", []))
    else None
  }

  function IPv6MethodStack(how: string): Option<NMIPStack> {
    if how == "link-local" then Some(NMIPStack(true, false, Some(false), "", []))
    else if how == "auto" then Some(NMIPStack(true, true, Some(true), "", []))
    else if how == "dhcp" then Some(NMIPStack(true, true, Some(false), "", []))
    else if how == "disabled" then Some(NMIPStack(false, false, None, "", []))
    else None
  }

  predicate AddrGenMode(mode: string) {
    mode == "eui64" || mode == "stable-privacy"
  }

  // A family is configured by a static address or by a method, never both.
  predicate ValidMethod(manual: Option<NMIPStack>, how: string, stack: Option<NMIPStack>) {
    how != "" ==> manual.None? && stack.Some?
  }

  function FamilyStack(manual: Option<NMIPStack>, how: string, stack: Option<NMIPStack>): Option<NMIPStack> {
    if how == "" then manual else stack
  }

  function IPv4Of(net: NetText, c: InterfaceConfig): Option<NMIPStack> {
    var how := T.TrimSpace(c.ipv4Method);
    FamilyStack(StaticStack(net, c, true), how, IPv4MethodStack(how))
  }

  function IPv6Before(net: NetText, c: InterfaceConfig): Option<NMIPStack> {
    var how := T.TrimSpace(c.ipv6Method);
    FamilyStack(StaticStack(net, c, false), how, IPv6MethodStack(how))
  }

  function WithGenMode(stack: Option<NMIPStack>, mode: string): Option<NMIPStack> {
    if mode == "" || stack.None? then stack else Some(stack.value.(addrGenMode := mode))
  }

  predicate ValidGenMode(stack: Option<NMIPStack>, mode: string) {
    mode != "" ==> AddrGenMode(mode) && stack.Some? && stack.value.enabled
  }

  predicate ValidFamilies(net: NetText, c: InterfaceConfig) {
    var method4, method6 := T.TrimSpace(c.ipv4Method), T.TrimSpace(c.ipv6Method);
    && ValidMethod(StaticStack(net, c, true), method4, IPv4MethodStack(method4))
    && ValidMethod(StaticStack(net, c, false), method6, IPv6MethodStack(method6))
    && ValidGenMode(IPv6Before(net, c), T.TrimSpace(c.ipv6AddrGenMode))
  }

  // An interface that is right on its own.
  ghost predicate ValidInterface(net: NetText, c: InterfaceConfig) {
    && c.name != "" && InRange(c.mtu, 1) && InRange(c.txQueueLen, 0)
    && ValidVLAN(c) && ValidBond(c) && ValidAddress(net, c) && ValidFamilies(net, c)
  }

  function VLANOf(c: InterfaceConfig): Option<NMVLAN> {
    if c.vlan.None? then None else Some(NMVLAN(T.TrimSpace(c.vlan.value.baseInterface), c.vlan.value.id))
  }

  function BondOf(bond: BondConfig): NMLinkAggregation {
    var primary := T.TrimSpace(bond.primary);
    NMLinkAggregation(T.TrimSpace(bond.mode), Trimmed(bond.ports),
      if bond.miimon.None? && primary == "" then None else Some(NMBondOptions(bond.miimon, primary)))
  }

  // What becomes of it.
  function InterfaceOf(net: NetText, c: InterfaceConfig): NMInterface {
    NMInterface(c.name, KindOf(c), c.mtu,
      IPv4Of(net, c), WithGenMode(IPv6Before(net, c), T.TrimSpace(c.ipv6AddrGenMode)),
      VLANOf(c), if c.bond.None? then None else Some(BondOf(c.bond.value)))
  }

  predicate ValidGateway(net: NetText, c: InterfaceConfig) {
    c.gateway != "" ==> net.parseAddr(c.gateway).Some?
  }

  // The default route for a gateway, in the gateway's family.
  function GatewayRoutes(net: NetText, c: InterfaceConfig): seq<NMRoute>
    requires ValidGateway(net, c)
  {
    if c.gateway == "" then []
    else
      var bits := net.parseAddr(c.gateway).value.bits;
      [NMRoute(if IsIPv4(bits) then "0.0.0.0/0" else "::/0", net.showIP(Canonical(bits)), c.name, None, None)]
  }

  ghost predicate ValidDNS(net: NetText, dns: seq<string>) {
    forall i | 0 <= i < |dns| :: net.parseAddr(dns[i]).Some?
  }

  function ServersOf(net: NetText, dns: seq<string>): (r: seq<string>)
    requires ValidDNS(net, dns)
    ensures |r| == |dns|
  {
    seq(|dns|, i requires 0 <= i < |dns| => net.showIP(Canonical(net.parseAddr(dns[i]).value.bits)))
  }

  ghost predicate ValidEntry(net: NetText, c: InterfaceConfig) {
    ValidInterface(net, c) && ValidGateway(net, c) && ValidDNS(net, c.dns)
  }

  predicate ValidNextHop(net: NetText, prefix: Prefix, nextHop: string) {
    nextHop != "" ==> net.parseAddr(nextHop).Some? && Is4(net.parseAddr(nextHop).value.bits) == Is4(prefix.bits)
  }

  predicate ValidRoute(net: NetText, r: RouteConfig) {
    var destination := T.TrimSpace(r.destination);
    && destination != "" && net.parsePrefix(destination).Some? && T.TrimSpace(r.nextHopInterface) != ""
    && ValidNextHop(net, net.parsePrefix(destination).value, T.TrimSpace(r.nextHopAddress))
    && InRange(r.tableID, 0) && InRange(r.metric, 0)
  }

  function RouteOf(net: NetText, r: RouteConfig): NMRoute
    requires ValidRoute(net, r)
  {
    var prefix, nextHop := net.parsePrefix(T.TrimSpace(r.destination)).value, T.TrimSpace(r.nextHopAddress);
    var gateway := if nextHop == "" then "" else net.show(Host(net.parseAddr(nextHop).value));
    NMRoute(net.show(Network(Masked(prefix))), gateway, T.TrimSpace(r.nextHopInterface), r.tableID, r.metric)
  }

  // The static address of an accepted interface is in the declared subnet, is assigned to its
  // own family alone, and excludes a method there.
  lemma StaticAddressWellFormed(net: NetText, c: InterfaceConfig)
    requires ValidInterface(net, c) && c.ipAddress != ""
    ensures net.parseAddr(c.ipAddress).Some? && net.parseCIDR(c.subnet).Some?
    ensures var bits, cidr := net.parseAddr(c.ipAddress).value.bits, net.parseCIDR(c.subnet).value;
            var built := InterfaceOf(net, c);
            var address := [NMAddress(net.showIP(Canonical(bits)), cidr.len)];
            && InSubnet(cidr, bits)
            && (if IsIPv4(bits) then built.ipv4.Some? && built.ipv4.value.addresses == address
              && T.TrimSpace(c.ipv4Method) == ""
                else built.ipv6.Some? && built.ipv6.value.addresses == address && T.TrimSpace(c.ipv6Method) == "")
            && (IsIPv4(bits) ==> built.ipv6.Some? ==> built.ipv6.value.addresses == [])
            && (!IsIPv4(bits) ==> built.ipv4.Some? ==> built.ipv4.value.addresses == [])
  {
    hide T.TrimSpace, NetContains, InSubnet, Canonical, To4, ValidVLAN, ValidBond, KindOf, VLANOf, BondOf;
    ContainsIffInSubnet(net.parseCIDR(c.subnet).value, net.parseAddr(c.ipAddress).value.bits);
  }

  // Whatever the declaration: a stack with addresses is a plain manual one, only IPv6 has the
  // IPv6 settings, and an address generation mode comes with an enabled stack.
  lemma StacksWellFormed(net: NetText, c: InterfaceConfig)
    requires ValidInterface(net, c)
    ensures var built := InterfaceOf(net, c);
            && (forall stack | Some(stack) in {built.ipv4, built.ipv6} && stack.addresses != [] ::
                  stack.enabled && !stack.dhcp && stack.autoconf.None? && |stack.addresses| == 1)
            && (built.ipv4.Some? ==> built.ipv4.value.autoconf.None? && built.ipv4.value.addrGenMode == "")
            && (built.ipv6.Some? && built.ipv6.value.addrGenMode != "" ==>
              built.ipv6.value.enabled && AddrGenMode(built.ipv6.value.addrGenMode))
            && (c.ipAddress == "" ==> forall stack | Some(stack) in {built.ipv4, built.ipv6} :: stack.addresses == [])
  {
    hide T.TrimSpace, NetContains, InSubnet, Canonical, To4, ValidVLAN, ValidBond, KindOf, VLANOf, BondOf, AddrGenMode;
  }

  predicate OptionsWellFormed(options: NMBondOptions, mode: string, ports: seq<string>) {
    InRange(options.miimon, 0) && (options.primary != "" ==> PrimaryMode(mode) && options.primary in ports)
  }

  // The VLAN and bond blocks are there exactly for their types, and complete.
  lemma BlocksWellFormed(net: NetText, c: InterfaceConfig)
    requires ValidInterface(net, c)
    ensures var built := InterfaceOf(net, c);
            && (built.vlan.Some? <==> built.kind == "vlan")
            && (built.vlan.Some? ==> built.vlan.value.baseIface != "" && 1 <= built.vlan.value.id <= 4094)
            && (built.linkAggregation.Some? <==> built.kind == "bond")
            && (built.linkAggregation.Some? ==>
                  var bond := built.linkAggregation.value;
                  && BondMode(bond.mode) && bond.port != [] && ValidMembers(built.name, bond.port)
                  && (bond.options.Some? ==> OptionsWellFormed(bond.options.value, bond.mode, bond.port)))
  {
    hide T.TrimSpace, Trimmed, ValidMembers, BondMode, PrimaryMode, IPv4Of, IPv6Before, WithGenMode, ValidFamilies,
      ValidAddress;
  }

  // The prefix length fits the family it is given to exactly unless an IPv4 address was
  // declared in a subnet written in the 16-byte form.
  lemma PrefixFitsIffSubnetOfFamily(net: NetText, c: InterfaceConfig)
    requires ValidInterface(net, c) && c.ipAddress != ""
    ensures net.parseAddr(c.ipAddress).Some? && net.parseCIDR(c.subnet).Some?
    ensures var bits, cidr := net.parseAddr(c.ipAddress).value.bits, net.parseCIDR(c.subnet).value;
            cidr.len <= (if IsIPv4(bits) then 32 else 128) <==> !(IsIPv4(bits) && |cidr.bits| == 128)
  {
    hide T.TrimSpace, ValidVLAN, ValidBond, KindOf, ValidFamilies, NetContains, Masked;
    ContainsIffInSubnet(net.parseCIDR(c.subnet).value, net.parseAddr(c.ipAddress).value.bits);
  }

  // 10.0.0.0 and 10.0.0.1.
  function Ten(host: bool): (r: Bits)
    ensures |r| == 32
  {
    Zeros(4) + [true, false, true, false] + Zeros(23) + [host]
  }

  // Such a declaration is accepted: with any parser that reads the two texts as they are
  // meant, 10.0.0.1 in ::ffff:a00:0/104 becomes an IPv4 address with prefix length 104.
  lemma MappedSubnetOverflows(net: NetText, c: InterfaceConfig)
    requires net.parseAddr("10.0.0.1") == Some(Addr(Ten(true), ""))
    requires net.parseCIDR("::ffff:a00:0/104") == Some(RawPrefix.Prefix(Mapped(Ten(false)), 104))
    requires c == InterfaceConfig("eth0", "", "10.0.0.1", "::ffff:a00:0/104", "", [], None, "", "", "", None,
      None, None)
    ensures ValidInterface(net, c) && InterfaceOf(net, c).ipv4.Some?
    ensures InterfaceOf(net, c).ipv4.value.addresses == [NMAddress(net.showIP(Ten(true)), 104)]
  {
    hide NetContains, InSubnet, Mapped, Masked, T.TrimSpace, BondMode, AddrGenMode, IPv4MethodStack, IPv6MethodStack,
      Ten, To4, StaticAddress;
    BlankStaysBlank();
    TenIsStatic(net);
  }

  lemma BlankStaysBlank()
    ensures T.TrimSpace("") == ""
  {
  }

  lemma TenIsStatic(net: NetText)
    requires net.parseAddr("10.0.0.1") == Some(Addr(Ten(true), ""))
    requires net.parseCIDR("::ffff:a00:0/104") == Some(RawPrefix.Prefix(Mapped(Ten(false)), 104))
    ensures StaticAddress(net, "10.0.0.1", "::ffff:a00:0/104") == Some((Ten(true), 104))
    ensures To4(Ten(true)) == Some(Ten(true))
  {
    hide NetContains, InSubnet, Mapped, Ten;
    TenInItsSubnet();
    ContainsIffInSubnet(RawPrefix.Prefix(Mapped(Ten(false)), 104), Ten(true));
  }

  lemma TenInItsSubnet()
    ensures InSubnet(RawPrefix.Prefix(Mapped(Ten(false)), 104), Ten(true))
  {
    assert Mapped(Ten(true))[..104] == Mapped(Ten(false))[..104];
  }

  ghost predicate SameCover(p: Prefix, o: Prefix) {
    forall a: Bits :: Covers(p, a) <==> Covers(o, a)
  }

  // Routes to the same destination text are routes to the same addresses: declarations of one
  // network under different host bits collapse, different networks never do.
  lemma RouteDestinationIffSameCover(net: NetText, r: RouteConfig, q: RouteConfig)
    requires InjectivePrinter(net) && ValidRoute(net, r) && ValidRoute(net, q)
    ensures RouteOf(net, r).destination == RouteOf(net, q).destination <==>
            SameCover(net.parsePrefix(T.TrimSpace(r.destination)).value,
              net.parsePrefix(T.TrimSpace(q.destination)).value)
  {
    SamePrefixText(net, net.parsePrefix(T.TrimSpace(r.destination)).value,
      net.parsePrefix(T.TrimSpace(q.destination)).value);
    hide T.TrimSpace, Covers, Masked, ValidNextHop, InjectivePrinter;
  }

  lemma SamePrefixText(net: NetText, p: Prefix, o: Prefix)
    requires InjectivePrinter(net)
    ensures net.show(Network(Masked(p))) == net.show(Network(Masked(o))) <==> SameCover(p, o)
  {
    hide Covers, Masked;
    MaskedEqualIffSameCover(p, o);
    assert net.show(Network(Masked(p))) == net.show(Network(Masked(o))) ==> Network(Masked(p)) == Network(Masked(o));
  }
}
