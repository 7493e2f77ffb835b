/**
 * The pure half of firewall.go: what a declaration opens, and the keys under which open
 * ports are later compared with the declarations.
 */
module FirewallRules {
  import opened Wrappers
  import opened Text
  import opened Net

  datatype PortConfig = PortConfig(zone: string, port: string, protocol: string, source: string)

  // What firewalld holds in a zone. A port entry is a list of strings as it crosses the
  // bus; only two-element entries are well formed.
  datatype Item = Port(entry: seq<string>) | Rule(text: string) | Service(name: string)

  datatype DeclaredZone = DeclaredZone(ports: set<string>, richRules: set<string>)

  datatype RuleError = BadSource

  const QUOTE := '"'

  function Protocol(protocol: string): string {
    var p := ToLower(TrimSpace(protocol));
    if p == "" then "tcp" else p
  }

  function FamilyName(bits: Bits): string {
    if Is4(bits) then "ipv4" else "ipv6"
  }

  function SourceFamily(net: NetText, source: string): Result<(string, Source), RuleError> {
    var addr := net.parseAddr(source);
    if addr.Some? then Ok((FamilyName(addr.value.bits), Host(addr.value)))
    else
      var prefix := net.parsePrefix(source);
      if prefix.None? then Err(BadSource)
      else Ok((FamilyName(prefix.value.bits), Network(Masked(prefix.value))))
  }

  function RuleText(family: string, source: string, port: string, protocol: string): string {
    "rule family=\"" + (family + [QUOTE] +
    (" source address=\"" + (source + [QUOTE] +
    (" port port=\"" + (port + [QUOTE] +
    (" protocol=\"" + (protocol + [QUOTE] +
    " accept")))))))
  }

  function RichRule(net: NetText, source: string, port: string, protocol: string): Result<string, RuleError> {
    var s := TrimSpace(source);
    if s == "" then Err(BadSource)
    else
      match SourceFamily(net, s)
      case Err(e) => Err(e)
      case Ok((family, normal)) =>
        Ok(RuleText(family, net.show(normal), TrimSpace(port), Protocol(protocol)))
  }

  function PortKey(port: string, protocol: string): string {
    TrimSpace(port) + "/" + Protocol(protocol)
  }

  function ZoneOf(p: PortConfig, defaultZone: string): string {
    var z := TrimSpace(p.zone);
    if z == "" then defaultZone else z
  }

  predicate IsPlain(p: PortConfig) {
    TrimSpace(p.source) == ""
  }

  // The item opening a declaration puts into firewalld.
  function OpenItem(net: NetText, p: PortConfig): Result<Item, RuleError> {
    var port, protocol := TrimSpace(p.port), Protocol(p.protocol);
    if IsPlain(p) then Ok(Port([port, protocol]))
    else
      match RichRule(net, TrimSpace(p.source), port, protocol)
      case Err(e) => Err(e)
      case Ok(rule) => Ok(Rule(rule))
  }

  // The key or rule under which a declaration is compared; computed from the raw fields.
  function CompareRule(net: NetText, p: PortConfig): Result<string, RuleError> {
    RichRule(net, TrimSpace(p.source), p.port, p.protocol)
  }

  function DeclaredAt(net: NetText, ports: seq<PortConfig>, defaultZone: string, zone: string): DeclaredZone {
    DeclaredZone(
      set p | p in ports && ZoneOf(p, defaultZone) == zone && IsPlain(p) :: PortKey(p.port, p.protocol),
      set p | p in ports && ZoneOf(p, defaultZone) == zone && !IsPlain(p)
        && CompareRule(net, p).Ok? :: CompareRule(net, p).value)
  }

  // What pruning leaves alone: malformed entries are skipped, services never survive.
  predicate Allowed(d: DeclaredZone, item: Item) {
    match item
    case Port(e) => |e| == 2 ==> PortKey(e[0], e[1]) in d.ports
    case Rule(text) => text in d.richRules
    case Service(_) => false
  }

  lemma TcpFixed()
    ensures TrimSpace("tcp") == "tcp" && ToLower("tcp") == "tcp"
  {
    LowerLettersFixed("tcp");
  }

  lemma ProtocolFixed(protocol: string)
    ensures Protocol(Protocol(protocol)) == Protocol(protocol)
  {
    NormaliseTwice(protocol);
    TcpFixed();
    hide TrimSpace, ToLower;
  }

  // Opening and comparing normalise alike: the opened port has the key its raw
  // declaration is compared under, and the opened rule is the compared rule.
  lemma OpeningAgreesWithComparing(net: NetText, p: PortConfig)
    ensures match OpenItem(net, p)
            case Ok(Port(e)) => IsPlain(p) && |e| == 2 && PortKey(e[0], e[1]) == PortKey(p.port, p.protocol)
            case Ok(Rule(text)) => !IsPlain(p) && CompareRule(net, p) == Ok(text)
            case Ok(Service(_)) => false
            case Err(_) => !IsPlain(p) && CompareRule(net, p).Err?
  {
    NormaliseTwice(p.port);
    NormaliseTwice(p.source);
    ProtocolFixed(p.protocol);
    hide RuleText, Protocol, TrimSpace, SourceFamily;
  }

  // Every declaration's item survives pruning in the zone it resolves to.
  lemma OpenedIsAllowed(net: NetText, ports: seq<PortConfig>, defaultZone: string, p: PortConfig)
    requires p in ports && OpenItem(net, p).Ok?
    ensures Allowed(DeclaredAt(net, ports, defaultZone, ZoneOf(p, defaultZone)), OpenItem(net, p).value)
  {
    OpeningAgreesWithComparing(net, p);
  }

  // The text of a rule determines all four of its fields, so long as none holds a quote.
  lemma RuleTextInjective(f1: string, s1: string, p1: string, t1: string, f2: string, s2: string, p2: string,
      t2: string)
    requires QUOTE !in f1 && QUOTE !in s1 && QUOTE !in p1 && QUOTE !in t1
    requires QUOTE !in f2 && QUOTE !in s2 && QUOTE !in p2 && QUOTE !in t2
    requires RuleText(f1, s1, p1, t1) == RuleText(f2, s2, p2, t2)
    ensures f1 == f2 && s1 == s2 && p1 == p2 && t1 == t2
  {
    var protocol1, protocol2 := t1 + [QUOTE] + " accept", t2 + [QUOTE] + " accept";
    var port1, port2 := p1 + [QUOTE] + (" protocol=\"" + protocol1), p2 + [QUOTE] + (" protocol=\"" + protocol2);
    var source1, source2 := s1 + [QUOTE] + (" port port=\"" + port1), s2 + [QUOTE] + (" port port=\"" + port2);
    var family1, family2 :=
      f1 + [QUOTE] + (" source address=\"" + source1), f2 + [QUOTE] + (" source address=\"" + source2);
    DropHead("rule family=\"", family1, family2);
    SplitAtSeparator(f1, f2, " source address=\"" + source1, " source address=\"" + source2, QUOTE);
    DropHead(" source address=\"", source1, source2);
    SplitAtSeparator(s1, s2, " port port=\"" + port1, " port port=\"" + port2, QUOTE);
    DropHead(" port port=\"", port1, port2);
    SplitAtSeparator(p1, p2, " protocol=\"" + protocol1, " protocol=\"" + protocol2, QUOTE);
    DropHead(" protocol=\"", protocol1, protocol2);
    SplitAtSeparator(t1, t2, " accept", " accept", QUOTE);
  }

  // A parsed source, before masking.
  function ParseSource(net: NetText, source: string): Option<Source> {
    var addr := net.parseAddr(source);
    if addr.Some? then Some(Host(addr.value))
    else
      var prefix := net.parsePrefix(source);
      if prefix.Some? then Some(Network(prefix.value)) else None
  }

  // The addresses a source admits.
  predicate Reach(s: Source, x: Bits) {
    match s
    case Host(a) => x == a.bits
    case Network(p) => Covers(p, x)
  }

  ghost predicate SameReach(s: Source, t: Source) {
    forall x: Bits :: Reach(s, x) <==> Reach(t, x)
  }

  // Written the same way: both as hosts of one zone, or both as networks.
  predicate SameForm(s: Source, t: Source) {
    match (s, t)
    case (Host(a), Host(b)) => a.zone == b.zone
    case (Network(_), Network(_)) => true
    case _ => false
  }

  function SourceText(net: NetText, s: Source): string {
    match s
    case Host(_) => net.show(s)
    case Network(p) => net.show(Network(Masked(p)))
  }

  // Two source-restricted declarations become one rule exactly when their sources admit the
  // same addresses and are written in the same form, and port and protocol agree.
  lemma SameRuleIffSameReach(net: NetText, a: PortConfig, b: PortConfig)
    requires InjectivePrinter(net)
    requires SourceUsable(net, a) && SourceUsable(net, b)
    requires QUOTE !in a.port && QUOTE !in b.port
    requires QUOTE !in Protocol(a.protocol) && QUOTE !in Protocol(b.protocol)
    ensures CompareRule(net, a) == CompareRule(net, b) <==>
            && SameReach(SourceOf(net, a), SourceOf(net, b)) && SameForm(SourceOf(net, a), SourceOf(net, b))
            && TrimSpace(a.port) == TrimSpace(b.port)
            && Protocol(a.protocol) == Protocol(b.protocol)
  {
    hide RuleText, Protocol, TrimSpace, SameReach, SameForm, InjectivePrinter, SourceText, FamilyName, IsPlain,
      CompareRule, SourceUsable, SourceOf;
    RuleParts(net, a);
    RuleParts(net, b);
    TrimSpaceIsTrimmed(a.port);
    TrimSpaceIsTrimmed(b.port);
    var sa, sb := SourceOf(net, a), SourceOf(net, b);
    if CompareRule(net, a) == CompareRule(net, b) {
      RuleTextInjective(FamilyName(SourceBits(sa)), SourceText(net, sa), TrimSpace(a.port), Protocol(a.protocol),
        FamilyName(SourceBits(sb)), SourceText(net, sb), TrimSpace(b.port), Protocol(b.protocol));
    }
    SameTextIffSameReach(net, sa, sb);
  }

  // A declaration by source whose source can be read, and prints without a quote.
  predicate SourceUsable(net: NetText, p: PortConfig) {
    && !IsPlain(p) && ParseSource(net, TrimSpace(p.source)).Some?
    && QUOTE !in SourceText(net, ParseSource(net, TrimSpace(p.source)).value)
  }

  function SourceOf(net: NetText, p: PortConfig): Source
    requires SourceUsable(net, p)
  {
    ParseSource(net, TrimSpace(p.source)).value
  }

  lemma RuleParts(net: NetText, p: PortConfig)
    requires SourceUsable(net, p)
    ensures var s := SourceOf(net, p);
            && CompareRule(net, p) ==
              Ok(RuleText(FamilyName(SourceBits(s)), SourceText(net, s), TrimSpace(p.port), Protocol(p.protocol)))
            && QUOTE !in FamilyName(SourceBits(s)) && QUOTE !in SourceText(net, s)
  {
    hide RuleText, Protocol, TrimSpace;
    NormaliseTwice(p.source);
  }

  function SourceBits(s: Source): Bits {
    match s
    case Host(a) => a.bits
    case Network(p) => p.bits
  }

  lemma SameTextIffSameReach(net: NetText, s: Source, t: Source)
    requires InjectivePrinter(net)
    ensures SourceText(net, s) == SourceText(net, t) <==> SameReach(s, t) && SameForm(s, t)
    ensures SameReach(s, t) ==> FamilyName(SourceBits(s)) == FamilyName(SourceBits(t))
  {
    assert Reach(s, SourceBits(s)) && Reach(t, SourceBits(t));
    match (s, t)
    case (Network(p), Network(q)) =>
      MaskedEqualIffSameCover(p, q);
      if SameReach(s, t) {
        forall x: Bits ensures Covers(p, x) <==> Covers(q, x) {
          assert Reach(s, x) <==> Reach(t, x);
        }
      }
    case _ =>
  }

  // Admitting the same addresses is not enough: a host and the one-address network around it
  // admit the same one, and so do two hosts that differ in their zone, yet they stay two rules.
  lemma SameReachTwoTexts(net: NetText, a: Addr, zone: string)
    requires InjectivePrinter(net) && zone != a.zone
    ensures SameReach(Host(a), Network(Prefix(a.bits, |a.bits|))) && SameReach(Host(a), Host(a.(zone := zone)))
    ensures SourceText(net, Host(a)) != SourceText(net, Network(Prefix(a.bits, |a.bits|)))
    ensures SourceText(net, Host(a)) != SourceText(net, Host(a.(zone := zone)))
  {
    forall x: Bits ensures Reach(Network(Prefix(a.bits, |a.bits|)), x) <==> x == a.bits {
      assert x[..|x|] == x;
      assert a.bits[..|a.bits|] == a.bits;
    }
  }
}
