/**
 * What the nmstate compiler accepts and what it makes of it, spelled out with the words, bounds
 * and fields as they are written, without the functions that build them.
 */
module NetworkMeaning {
  import opened Wrappers
  import opened Net
  import opened InterfaceRules
  import T = Text

  function KindMeant(c: InterfaceConfig): string {
    if T.TrimSpace(c.kind) == "" then "ethernet" else T.TrimSpace(c.kind)
  }

  predicate Fits(value: Option<int>, low: int) {
    value.Some? ==> low <= value.value <= 4294967295
  }

  predicate BondModeMeant(mode: string) {
    || mode == "balance-rr" || mode == "active-backup" || mode == "balance-xor" || mode == "broadcast"
    || mode == "802.3ad" || mode == "balance-tlb" || mode == "balance-alb"
  }

  predicate PrimaryModeMeant(mode: string) {
    mode == "active-backup" || mode == "balance-tlb" || mode == "balance-alb"
  }

  predicate BondAccepted(name: string, b: BondConfig) {
    && BondModeMeant(T.TrimSpace(b.mode)) && |b.ports| > 0 && Fits(b.miimon, 0)
    && (forall i | 0 <= i < |b.ports| :: T.TrimSpace(b.ports[i]) != "" && T.TrimSpace(b.ports[i]) != name)
    && (forall i, j | 0 <= i < j < |b.ports| :: T.TrimSpace(b.ports[i]) != T.TrimSpace(b.ports[j]))
    && (T.TrimSpace(b.primary) != "" ==>
          && PrimaryModeMeant(T.TrimSpace(b.mode))
          && exists i | 0 <= i < |b.ports| :: T.TrimSpace(b.ports[i]) == T.TrimSpace(b.primary))
  }

  // A static address: both texts are read, and the address is in the subnet.
  ghost predicate AddressRead(net: NetText, c: InterfaceConfig) {
    && net.parseAddr(c.ipAddress).Some? && net.parseCIDR(c.subnet).Some?
    && InSubnet(net.parseCIDR(c.subnet).value, net.parseAddr(c.ipAddress).value.bits)
  }

  ghost predicate HasFour(bits: Bits) {
    exists four: Bits :: FourOf(bits, four)
  }

  ghost predicate StaticIn(net: NetText, c: InterfaceConfig, v4: bool) {
    c.ipAddress != "" && net.parseAddr(c.ipAddress).Some? && (HasFour(net.parseAddr(c.ipAddress).value.bits) <==> v4)
  }

  ghost predicate FamiliesAccepted(net: NetText, c: InterfaceConfig) {
    var m4, m6, g := T.TrimSpace(c.ipv4Method), T.TrimSpace(c.ipv6Method), T.TrimSpace(c.ipv6AddrGenMode);
    && (m4 == "" || ((m4 == "dhcp" || m4 == "auto" || m4 == "disabled") && !StaticIn(net, c, true)))
    && (|| m6 == ""
        || ((m6 == "link-local" || m6 == "auto" || m6 == "dhcp" || m6 == "disabled") && !StaticIn(net, c, false)))
    && (|| g == ""
        || (&& (g == "eui64" || g == "stable-privacy")
            && (m6 == "link-local" || m6 == "auto" || m6 == "dhcp" || StaticIn(net, c, false))))
  }

  ghost predicate InterfaceAccepted(net: NetText, c: InterfaceConfig) {
    && c.name != "" && Fits(c.mtu, 1) && Fits(c.txQueueLen, 0)
    && (if KindMeant(c) == "vlan" then
          c.vlan.Some? && T.TrimSpace(c.vlan.value.baseInterface) != "" && 1 <= c.vlan.value.id <= 4094
        else c.vlan.None?)
    && (if KindMeant(c) == "bond" then c.bond.Some? && BondAccepted(c.name, c.bond.value) else c.bond.None?)
    && (if c.ipAddress == "" then c.subnet == "" else c.subnet != "" && AddressRead(net, c))
    && FamiliesAccepted(net, c)
  }

  lemma BondInFull(name: string, b: BondConfig)
    ensures ValidBondSettings(name, b) <==> BondAccepted(name, b)
  {
    hide T.TrimSpace;
    var ports := Trimmed(b.ports);
    assert forall i | 0 <= i < |ports| :: ports[i] == T.TrimSpace(b.ports[i]);
    assert |ports| == |b.ports|;
    hide BondMode, PrimaryMode, BondModeMeant, PrimaryModeMeant, Trimmed;
    ModesInFull(T.TrimSpace(b.mode));
  }

  lemma ModesInFull(mode: string)
    ensures BondMode(mode) <==> BondModeMeant(mode)
    ensures PrimaryMode(mode) <==> PrimaryModeMeant(mode)
  {
  }

  lemma StaticInFull(net: NetText, c: InterfaceConfig)
    requires ValidAddress(net, c)
    ensures StaticIn(net, c, true) <==> StaticStack(net, c, true).Some?
    ensures StaticIn(net, c, false) <==> StaticStack(net, c, false).Some?
  {
    hide NetContains, To4, Canonical, FourOf;
    if c.ipAddress != "" {
      To4InFull(net.parseAddr(c.ipAddress).value.bits);
      assert To4(net.parseAddr(c.ipAddress).value.bits).Some? ==>
          FourOf(net.parseAddr(c.ipAddress).value.bits, To4(net.parseAddr(c.ipAddress).value.bits).value);
    }
  }

  lemma AddressInFull(net: NetText, c: InterfaceConfig)
    ensures ValidAddress(net, c) <==>
      if c.ipAddress == "" then c.subnet == "" else c.subnet != "" && AddressRead(net, c)
  {
    hide NetContains, InSubnet;
    if net.parseAddr(c.ipAddress).Some? && net.parseCIDR(c.subnet).Some? {
      ContainsIffInSubnet(net.parseCIDR(c.subnet).value, net.parseAddr(c.ipAddress).value.bits);
    }
  }

  lemma FamiliesInFull(net: NetText, c: InterfaceConfig)
    requires ValidAddress(net, c)
    ensures ValidFamilies(net, c) <==> FamiliesAccepted(net, c)
  {
    hide T.TrimSpace, StaticIn, ValidAddress;
    StaticInFull(net, c);
    StaticIsEnabled(net, c);
    hide StaticStack;
  }

  lemma StaticIsEnabled(net: NetText, c: InterfaceConfig)
    ensures StaticStack(net, c, false).Some? ==> StaticStack(net, c, false).value.enabled
  {
    hide StaticAddress, Canonical, To4;
  }

  // An interface is accepted exactly under these conditions.
  lemma AcceptedInterfaceInFull(net: NetText, c: InterfaceConfig)
    ensures ValidInterface(net, c) <==> InterfaceAccepted(net, c)
  {
    hide T.TrimSpace, ValidAddress, AddressRead, ValidFamilies, FamiliesAccepted, ValidBondSettings, BondAccepted;
    AddressInFull(net, c);
    if ValidAddress(net, c) {
      FamiliesInFull(net, c);
    }
    if c.bond.Some? {
      BondInFull(c.name, c.bond.value);
    }
  }

  /* ---- what becomes of it ---- */

  // The address as it is shown: in its 4-byte form if it has one.
  ghost predicate ShownAs(net: NetText, bits: Bits, text: string) {
    if HasFour(bits) then (exists four: Bits :: FourOf(bits, four) && text == net.showIP(four))
    else text == net.showIP(bits)
  }

  lemma ShownInFull(net: NetText, bits: Bits)
    ensures ShownAs(net, bits, net.showIP(Canonical(bits))) && (HasFour(bits) <==> To4(bits).Some?)
  {
    hide To4, Canonical, FourOf;
    To4InFull(bits);
    if To4(bits).Some? {
      assert FourOf(bits, To4(bits).value);
    }
  }

  ghost predicate StaticAsked(net: NetText, c: InterfaceConfig, s: NMIPStack) {
    && net.parseAddr(c.ipAddress).Some? && net.parseCIDR(c.subnet).Some?
    && s.enabled && !s.dhcp && s.autoconf.None? && |s.addresses| == 1
    && ShownAs(net, net.parseAddr(c.ipAddress).value.bits, s.addresses[0].ip)
    && s.addresses[0].prefixLength == net.parseCIDR(c.subnet).value.len
  }

  ghost predicate IPv4Asked(net: NetText, c: InterfaceConfig, stack: Option<NMIPStack>) {
    var m := T.TrimSpace(c.ipv4Method);
    if StaticIn(net, c, true) then stack.Some? && StaticAsked(net, c, stack.value) && stack.value.addrGenMode == ""
    else if m == "" then stack.None?
    else
      && stack.Some? && stack.value.autoconf.None? && stack.value.addrGenMode == "" && stack.value.addresses == []
      && stack.value.enabled == (m != "disabled") && stack.value.dhcp == (m != "disabled")
  }

  ghost predicate IPv6Asked(net: NetText, c: InterfaceConfig, stack: Option<NMIPStack>) {
    var m, g := T.TrimSpace(c.ipv6Method), T.TrimSpace(c.ipv6AddrGenMode);
    if StaticIn(net, c, false) then stack.Some? && StaticAsked(net, c, stack.value) && stack.value.addrGenMode == g
    else if m == "" then stack.None?
    else
      && stack.Some? && stack.value.addrGenMode == g && stack.value.addresses == []
      && stack.value.enabled == (m != "disabled") && stack.value.dhcp == (m == "auto" || m == "dhcp")
      && stack.value.autoconf == if m == "disabled" then None else Some(m == "auto")
  }

  predicate BondAsked(b: BondConfig, a: NMLinkAggregation) {
    && a.mode == T.TrimSpace(b.mode) && |a.port| == |b.ports|
    && (forall i | 0 <= i < |a.port| :: a.port[i] == T.TrimSpace(b.ports[i]))
    && (a.options.None? <==> b.miimon.None? && T.TrimSpace(b.primary) == "")
    && (a.options.Some? ==> a.options.value.miimon == b.miimon && a.options.value.primary == T.TrimSpace(b.primary))
  }

  ghost predicate InterfaceAsked(net: NetText, c: InterfaceConfig, i: NMInterface) {
    && i.name == c.name && i.kind == KindMeant(c) && i.mtu == c.mtu
    && IPv4Asked(net, c, i.ipv4) && IPv6Asked(net, c, i.ipv6)
    && (i.vlan.Some? <==> c.vlan.Some?) && (i.linkAggregation.Some? <==> c.bond.Some?)
    && (c.vlan.Some? ==>
          && i.vlan.value.baseIface == T.TrimSpace(c.vlan.value.baseInterface)
          && i.vlan.value.id == c.vlan.value.id)
    && (c.bond.Some? ==> BondAsked(c.bond.value, i.linkAggregation.value))
  }

  lemma StaticIsAsked(net: NetText, c: InterfaceConfig, v4: bool)
    ensures StaticStack(net, c, v4).Some? ==>
              StaticAsked(net, c, StaticStack(net, c, v4).value) && StaticStack(net, c, v4).value.addrGenMode == ""
  {
    hide NetContains, Canonical, To4, ShownAs;
    if net.parseAddr(c.ipAddress).Some? {
      ShownInFull(net, net.parseAddr(c.ipAddress).value.bits);
    }
  }

  lemma IPv4IsAsked(net: NetText, c: InterfaceConfig)
    requires ValidAddress(net, c) && ValidFamilies(net, c)
    ensures IPv4Asked(net, c, IPv4Of(net, c))
  {
    hide T.TrimSpace, StaticIn, ValidAddress, StaticAsked, StaticStack, IPv6MethodStack, ValidGenMode;
    StaticInFull(net, c);
    StaticIsAsked(net, c, true);
  }

  lemma IPv6IsAsked(net: NetText, c: InterfaceConfig)
    requires ValidAddress(net, c) && ValidFamilies(net, c)
    ensures IPv6Asked(net, c, WithGenMode(IPv6Before(net, c), T.TrimSpace(c.ipv6AddrGenMode)))
  {
    hide T.TrimSpace, StaticIn, ValidAddress, ShownAs, StaticStack, IPv4MethodStack, AddrGenMode;
    StaticInFull(net, c);
    StaticIsAsked(net, c, false);
  }

  // What becomes of an accepted interface, field by field.
  lemma BuiltInterfaceInFull(net: NetText, c: InterfaceConfig)
    requires ValidInterface(net, c)
    ensures InterfaceAsked(net, c, InterfaceOf(net, c))
  {
    hide T.TrimSpace, ValidAddress, ValidFamilies, IPv4Asked, IPv6Asked, IPv4Of, IPv6Before, WithGenMode,
      ValidBondSettings;
    IPv4IsAsked(net, c);
    IPv6IsAsked(net, c);
  }

  // A gateway's route: the default one of its family, through the interface, in the main table.
  lemma GatewayInFull(net: NetText, c: InterfaceConfig)
    requires ValidGateway(net, c)
    ensures c.gateway == "" ==> GatewayRoutes(net, c) == []
    ensures c.gateway != "" ==>
              && |GatewayRoutes(net, c)| == 1
              && var r, bits := GatewayRoutes(net, c)[0], net.parseAddr(c.gateway).value.bits;
                 && r.destination == (if HasFour(bits) then "0.0.0.0/0" else "::/0")
                 && ShownAs(net, bits, r.nextHopAddress) && r.nextHopInterface == c.name
                 && r.tableID.None? && r.metric.None?
  {
    hide To4, Canonical, ShownAs, HasFour;
    if c.gateway != "" {
      ShownInFull(net, net.parseAddr(c.gateway).value.bits);
    }
  }

  lemma ServersInFull(net: NetText, dns: seq<string>, i: nat)
    requires ValidDNS(net, dns) && i < |dns|
    ensures |ServersOf(net, dns)| == |dns|
    ensures ShownAs(net, net.parseAddr(dns[i]).value.bits, ServersOf(net, dns)[i])
  {
    hide Canonical, ShownAs;
    ShownInFull(net, net.parseAddr(dns[i]).value.bits);
  }

  // When a declared route is accepted, and what becomes of it.
  lemma RouteInFull(net: NetText, r: RouteConfig)
    ensures var destination, via, hop :=
      T.TrimSpace(r.destination), T.TrimSpace(r.nextHopInterface), T.TrimSpace(r.nextHopAddress);
            ValidRoute(net, r) <==>
              && destination != "" && net.parsePrefix(destination).Some? && via != ""
              && (hop != "" ==>
                    && net.parseAddr(hop).Some?
                    && |net.parseAddr(hop).value.bits| == |net.parsePrefix(destination).value.bits|)
              && Fits(r.tableID, 0) && Fits(r.metric, 0)
    ensures ValidRoute(net, r) ==>
              var built, hop := RouteOf(net, r), T.TrimSpace(r.nextHopAddress);
              && (exists m: Prefix ::
                    && NetworkOf(m, net.parsePrefix(T.TrimSpace(r.destination)).value)
                    && built.destination == net.show(Network(m)))
              && built.nextHopAddress == (if hop == "" then "" else net.show(Host(net.parseAddr(hop).value)))
              && built.nextHopInterface == T.TrimSpace(r.nextHopInterface)
              && built.tableID == r.tableID && built.metric == r.metric
  {
    hide T.TrimSpace, Masked, NetworkOf;
    if ValidRoute(net, r) {
      MaskedIsNetwork(net.parsePrefix(T.TrimSpace(r.destination)).value);
    }
  }
}
