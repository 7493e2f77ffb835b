/**
 * What a converged firewall means, spelled out: the rich-rule language is read back, and zones,
 * ports and protocols are given as they are written, without the functions that build them.
 */
module FirewallMeaning {
  import opened Wrappers
  import opened Text
  import opened Net
  import opened FirewallRules
  import opened FirewallState
  import opened ConfigRules

  datatype Reading = Reading(family: string, source: string, port: string, protocol: string, action: string)

  function After(s: string, literal: string): Option<string> {
    if literal <= s then Some(s[|literal|..]) else None
  }

  // The text up to the next quote, and what follows the quote.
  function Quoted(s: string): Option<(string, string)> {
    var i := IndexOf(s, '"');
    if i < |s| then Some((s[..i], s[i + 1..])) else None
  }

  function Field(s: string, literal: string): Option<(string, string)> {
    match After(s, literal)
    case None => None
    case Some(rest) => Quoted(rest)
  }

  // A rule of firewalld's rich language: family, source address, port, protocol, action.
  function ReadRule(s: string): Option<Reading> {
    match Field(s, "rule family=\"")
    case None => None
    case Some((family, s1)) =>
      match Field(s1, " source address=\"")
      case None => None
      case Some((source, s2)) =>
        match Field(s2, " port port=\"")
        case None => None
        case Some((port, s3)) =>
          match Field(s3, " protocol=\"")
          case None => None
          case Some((protocol, s4)) =>
            match After(s4, " ")
            case None => None
            case Some(action) => Some(Reading(family, source, port, protocol, action))
  }

  lemma FieldReads(literal: string, value: string, rest: string)
    requires '"' !in value
    ensures Field(literal + (value + ['"'] + rest), literal) == Some((value, rest))
  {
    var s := literal + (value + ['"'] + rest);
    var t := value + ['"'] + rest;
    assert literal <= s && s[|literal|..] == t;
    IndexOfSeparator(value, rest, '"');
    assert t[..|value|] == value && t[|value| + 1..] == rest;
  }

  lemma RuleReads(family: string, source: string, port: string, protocol: string)
    requires '"' !in family && '"' !in source && '"' !in port && '"' !in protocol
    ensures ReadRule(RuleText(family, source, port, protocol)) ==
      Some(Reading(family, source, port, protocol, "accept"))
  {
    hide Field;
    var s4 := " accept";
    var s3 := " protocol=\"" + (protocol + [QUOTE] + s4);
    var s2 := " port port=\"" + (port + [QUOTE] + s3);
    var s1 := " source address=\"" + (source + [QUOTE] + s2);
    FieldReads(" protocol=\"", protocol, s4);
    FieldReads(" port port=\"", port, s3);
    FieldReads(" source address=\"", source, s2);
    FieldReads("rule family=\"", family, s1);
    assert s4[1..] == "accept";
  }

  function ProtocolMeant(protocol: string): string {
    var p := ToLower(TrimSpace(protocol));
    if p == "" then "tcp" else p
  }

  function ZoneMeant(zone: string, defaultZone: string): string {
    if TrimSpace(zone) == "" then defaultZone else TrimSpace(zone)
  }

  function FamilyMeant(bits: Bits): string {
    if |bits| == 32 then "ipv4" else "ipv6"
  }

  // What a declaration by source asks for: its packets accepted, from the address as parsed or
  // from the whole network, on its port.
  ghost predicate Asks(net: NetText, p: PortConfig, r: Reading) {
    var source := TrimSpace(p.source);
    var addr, prefix := net.parseAddr(source), net.parsePrefix(source);
    && r.action == "accept" && r.port == TrimSpace(p.port) && r.protocol == ProtocolMeant(p.protocol)
    && if addr.Some? then r.source == net.show(Host(addr.value)) && r.family == FamilyMeant(addr.value.bits)
       else
         && prefix.Some? && r.family == FamilyMeant(prefix.value.bits)
         && exists m: Prefix :: NetworkOf(m, prefix.value) && r.source == net.show(Network(m))
  }

  // Opening a declaration by source adds the rule it asks for.
  lemma OpenedRuleAsks(net: NetText, p: PortConfig)
    requires SourceUsable(net, p) && QUOTE !in p.port && QUOTE !in Protocol(p.protocol)
    ensures OpenItem(net, p).Ok? && OpenItem(net, p).value.Rule?
    ensures ReadRule(OpenItem(net, p).value.text).Some? && Asks(net, p, ReadRule(OpenItem(net, p).value.text).value)
  {
    hide RuleText, ReadRule, TrimSpace, ToLower, Masked, NetworkOf, InjectivePrinter;
    RuleParts(net, p);
    OpeningAgreesWithComparing(net, p);
    TrimSpaceIsTrimmed(p.port);
    var s := SourceOf(net, p);
    RuleReads(FamilyName(SourceBits(s)), SourceText(net, s), TrimSpace(p.port), Protocol(p.protocol));
    if s.Network? {
      MaskedIsNetwork(s.prefix);
    }
  }

  // Opening one without a source adds its port.
  lemma OpenedPortAsks(net: NetText, p: PortConfig)
    requires TrimSpace(p.source) == ""
    ensures OpenItem(net, p) == Ok(Port([TrimSpace(p.port), ProtocolMeant(p.protocol)]))
  {
    hide TrimSpace, ToLower;
  }

  // Declarations the checks accept, whose sources print without quotes.
  ghost predicate AllUsable(net: NetText, ports: seq<PortConfig>) {
    forall p | p in ports ::
      ValidateDeclaration(net, p).None? && (TrimSpace(p.source) == "" || SourceUsable(net, p))
  }

  // item is what p asks for.
  ghost predicate Meets(net: NetText, p: PortConfig, item: Item) {
    if TrimSpace(p.source) == "" then item == Port([TrimSpace(p.port), ProtocolMeant(p.protocol)])
    else item.Rule? && ReadRule(item.text).Some? && Asks(net, p, ReadRule(item.text).value)
  }

  lemma OpenedMeets(net: NetText, p: PortConfig)
    requires ValidateDeclaration(net, p).None? && (TrimSpace(p.source) == "" || SourceUsable(net, p))
    ensures OpenItem(net, p).Ok? && Meets(net, p, OpenItem(net, p).value)
  {
    hide OpenItem, TrimSpace, SourceUsable, ReadRule, Asks, ProtocolMeant, Protocol, ValidateDeclaration;
    if TrimSpace(p.source) == "" {
      OpenedPortAsks(net, p);
    } else {
      AcceptedQuoteFree(net, p);
      OpenedRuleAsks(net, p);
    }
  }

  // In a converged firewall every declaration is met in both configurations, in its zone.
  lemma EveryDeclarationMet(plan: Plan, s: State, h: Half, p: PortConfig)
    requires plan.Converged(s) && AllUsable(plan.net, plan.ports) && p in plan.ports
    ensures ZoneMeant(p.zone, plan.defaultZone) in s.Get(h)
    ensures exists item | item in s.Get(h)[ZoneMeant(p.zone, plan.defaultZone)] :: Meets(plan.net, p, item)
  {
    hide OpenItem, TrimSpace, SourceUsable, Meets, DeclaredAt, ValidateDeclaration;
    OpenedMeets(plan.net, p);
    assert plan.IsOpen(s, p) && plan.OpenIn(h, s, p);
    assert OpenItem(plan.net, p).value in s.Get(h)[ZoneMeant(p.zone, plan.defaultZone)];
  }

  // A port entry under the key of a declared port, or a rule asked for, in its zone.
  ghost predicate Wanted(plan: Plan, z: string, item: Item, p: PortConfig) {
    && ZoneMeant(p.zone, plan.defaultZone) == z
    && match item
       case Port(e) =>
         && TrimSpace(p.source) == "" && |e| == 2
         && TrimSpace(e[0]) + "/" + ProtocolMeant(e[1]) == TrimSpace(p.port) + "/" + ProtocolMeant(p.protocol)
       case Rule(_) => TrimSpace(p.source) != "" && Meets(plan.net, p, item)
       case Service(_) => false
  }

  // And nothing else is left but port entries that are no pair.
  lemma NothingElseLeft(plan: Plan, s: State, h: Half, z: string, item: Item)
    requires plan.Converged(s) && AllUsable(plan.net, plan.ports)
    requires z in s.Get(h) && item in s.Get(h)[z] && (item.Port? ==> |item.entry| == 2)
    ensures exists p | p in plan.ports :: Wanted(plan, z, item, p)
  {
    hide TrimSpace, ToLower, SourceUsable, Meets, CompareRule, OpenItem, ValidateDeclaration, Plan.AllOpen;
    assert plan.ZoneClean(h, s, z) && Allowed(plan.Declared(z), item);
    match item
    case Port(e) =>
      var p :| p in plan.ports && ZoneOf(p, plan.defaultZone) == z && IsPlain(p)
        && PortKey(p.port, p.protocol) == PortKey(e[0], e[1]);
      assert Wanted(plan, z, item, p);
    case Rule(text) =>
      var p :| p in plan.ports && ZoneOf(p, plan.defaultZone) == z && !IsPlain(p)
        && CompareRule(plan.net, p) == Ok(text);
      OpenedMeets(plan.net, p);
      OpeningAgreesWithComparing(plan.net, p);
      assert Wanted(plan, z, item, p);
    case Service(_) =>
  }
}
