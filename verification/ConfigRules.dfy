/**
 * The firewall and port checks of config.go, and what passing them guarantees to the
 * stages that run later.
 */
module ConfigRules {
  import opened Wrappers
  import opened Text
  import opened Net
  import opened FirewallRules

  datatype Invalid = MissingPort | NotANumber | PortRange | RangeOrder | UnknownProtocol | UnknownSource

  predicate IsDigit(c: char) {
    '0' <= c <= '9'
  }

  predicate AllDigits(s: string) {
    forall c | c in s :: IsDigit(c)
  }

  function Value(s: string): nat
    requires AllDigits(s)
  {
    if s == "" then 0
    else
      var i := |s| - 1;
      assert s[i] in s && forall c :: c in s[..i] ==> c in s;
      10 * Value(s[..i]) + (s[i] as int - '0' as int)
  }

  const MAX_INT := 0x7FFF_FFFF_FFFF_FFFF

  // strconv.Atoi on a 64-bit platform: an optional sign, then digits, in range.
  function Atoi(s: string): Option<int> {
    var negative := s != "" && s[0] == '-';
    var digits := if s != "" && (s[0] == '-' || s[0] == '+') then s[1..] else s;
    if digits == "" || !AllDigits(digits) then None
    else
      var v: int := Value(digits);
      if v > MAX_INT + (if negative then 1 else 0) then None
      else Some(if negative then -v else v)
  }

  function ParsePortNumber(port: string): Result<int, Invalid> {
    match Atoi(TrimSpace(port))
    case None => Err(NotANumber)
    case Some(v) => if v < 1 || v > 65535 then Err(PortRange) else Ok(v)
  }

  // strings.Cut at the first separator.
  function Cut(s: string, sep: char): (r: (string, string, bool))
    ensures r.2 ==> s == r.0 + [sep] + r.1 && sep !in r.0
    ensures !r.2 ==> r.0 == s && sep !in s
  {
    var i := IndexOf(s, sep);
    IndexOfFirst(s, sep);
    if i < |s| then (s[..i], s[i + 1..], true) else (s, "", false)
  }

  function ValidatePort(raw: string): Option<Invalid> {
    var port := TrimSpace(raw);
    if port == "" then Some(MissingPort)
    else
      var (start, end, hasRange) := Cut(port, '-');
      match ParsePortNumber(start)
      case Err(e) => Some(e)
      case Ok(first) =>
        if !hasRange then None
        else
          match ParsePortNumber(end)
          case Err(e) => Some(e)
          case Ok(last) => if first > last then Some(RangeOrder) else None
  }

  function ValidateProtocol(protocol: string): Option<Invalid> {
    var p := ToLower(TrimSpace(protocol));
    if p == "" || p == "tcp" || p == "udp" || p == "sctp" || p == "dccp" then None else Some(UnknownProtocol)
  }

  function ValidateSource(net: NetText, raw: string): Option<Invalid> {
    var source := TrimSpace(raw);
    if source == "" || net.parseAddr(source).Some? || net.parsePrefix(source).Some? then None
    else Some(UnknownSource)
  }

  function ValidateDeclaration(net: NetText, p: PortConfig): Option<Invalid> {
    var port := ValidatePort(p.port);
    if port.Some? then port
    else
      var protocol := ValidateProtocol(p.protocol);
      if protocol.Some? then protocol else ValidateSource(net, p.source)
  }

  // validateFirewallPortConfigs: checks in order and reports the first offender.
  function ValidateDeclarations(net: NetText, ports: seq<PortConfig>, i: nat := 0): Option<(nat, Invalid)>
    requires i <= |ports|
    decreases |ports| - i
  {
    if i == |ports| then None
    else
      var e := ValidateDeclaration(net, ports[i]);
      if e.Some? then Some((i, e.value)) else ValidateDeclarations(net, ports, i + 1)
  }

  lemma {:induction false} FirstOffender(net: NetText, ports: seq<PortConfig>, i: nat)
    requires i <= |ports|
    ensures match ValidateDeclarations(net, ports, i)
            case None => forall j | i <= j < |ports| :: ValidateDeclaration(net, ports[j]).None?
            case Some((k, e)) =>
              && i <= k < |ports| && ValidateDeclaration(net, ports[k]) == Some(e)
              && forall j | i <= j < k :: ValidateDeclaration(net, ports[j]).None?
    decreases |ports| - i
  {
    hide ValidateDeclaration;
    if i < |ports| {
      FirstOffender(net, ports, i + 1);
    }
  }

  // A list the checks accept opens and groups without error: the later stages never see a
  // source they cannot turn into a rule.
  lemma AcceptedNeverFails(net: NetText, ports: seq<PortConfig>, p: PortConfig)
    requires ValidateDeclarations(net, ports).None? && p in ports
    ensures OpenItem(net, p).Ok?
    ensures !IsPlain(p) ==> CompareRule(net, p).Ok?
  {
    FirstOffender(net, ports, 0);
    hide RichRule, Protocol, TrimSpace, ValidatePort, ValidateProtocol, ValidateSource, ValidateDeclarations;
    assert ValidateDeclaration(net, p).None?;
    if !IsPlain(p) {
      AcceptedSourceBuilds(net, p.source, p.port, p.protocol);
      AcceptedSourceBuilds(net, p.source, TrimSpace(p.port), Protocol(p.protocol));
    }
  }

  lemma AcceptedSourceBuilds(net: NetText, source: string, port: string, protocol: string)
    requires ValidateSource(net, source).None? && TrimSpace(source) != ""
    ensures RichRule(net, TrimSpace(source), port, protocol).Ok?
  {
    NormaliseTwice(source);
    hide RuleText, Protocol, TrimSpace, ToLower;
  }

  predicate PortChar(c: char) {
    IsDigit(c) || c == '-' || c == '+' || IsSpace(c)
  }

  lemma NumberText(s: string)
    requires ParsePortNumber(s).Ok?
    ensures forall c :: c in s ==> PortChar(c)
  {
    TrimSpaceDropsSpaces(s);
    var t := TrimSpace(s);
    hide IsSpace, TrimSpace, Value;
    assert t == [t[0]] + t[1..];
  }

  lemma AcceptedPortText(raw: string)
    requires ValidatePort(raw).None?
    ensures forall c :: c in raw ==> PortChar(c)
  {
    TrimSpaceDropsSpaces(raw);
    var port := TrimSpace(raw);
    var (start, end, hasRange) := Cut(port, '-');
    NumberText(start);
    if hasRange {
      NumberText(end);
    }
    hide IsSpace, TrimSpace, ParsePortNumber, Cut;
  }

  lemma NotPortChars()
    ensures !PortChar('/') && !PortChar(QUOTE)
  {
  }

  lemma AcceptedProtocolText(protocol: string)
    requires ValidateProtocol(protocol).None?
    ensures QUOTE !in Protocol(protocol)
  {
    hide TrimSpace;
  }

  // For accepted declarations two keys agree only when port and protocol both do.
  lemma AcceptedKeysUnambiguous(net: NetText, a: PortConfig, b: PortConfig)
    requires ValidateDeclaration(net, a).None? && ValidateDeclaration(net, b).None?
    ensures PortKey(a.port, a.protocol) == PortKey(b.port, b.protocol) <==>
            TrimSpace(a.port) == TrimSpace(b.port) && Protocol(a.protocol) == Protocol(b.protocol)
  {
    AcceptedPortText(a.port);
    AcceptedPortText(b.port);
    TrimSpaceIsTrimmed(a.port);
    TrimSpaceIsTrimmed(b.port);
    NotPortChars();
    hide Protocol, TrimSpace, ValidatePort, ValidateProtocol, ValidateSource, PortChar;
    if PortKey(a.port, a.protocol) == PortKey(b.port, b.protocol) {
      SplitAtSeparator(TrimSpace(a.port), TrimSpace(b.port), Protocol(a.protocol), Protocol(b.protocol), '/');
    }
  }

  // For accepted source-restricted declarations whose source text holds no quote, one rule
  // means one reach in one form, one port and one protocol: equivalent networks collapse to
  // one rule, different ones never do.
  lemma AcceptedRulesUnambiguous(net: NetText, a: PortConfig, b: PortConfig)
    requires InjectivePrinter(net)
    requires ValidateDeclaration(net, a).None? && ValidateDeclaration(net, b).None?
    requires SourceUsable(net, a) && SourceUsable(net, b)
    ensures CompareRule(net, a) == CompareRule(net, b) <==>
            && SameReach(SourceOf(net, a), SourceOf(net, b)) && SameForm(SourceOf(net, a), SourceOf(net, b))
            && TrimSpace(a.port) == TrimSpace(b.port)
            && Protocol(a.protocol) == Protocol(b.protocol)
  {
    hide *;
    AcceptedQuoteFree(net, a);
    AcceptedQuoteFree(net, b);
    SameRuleIffSameReach(net, a, b);
  }

  // What is left to assume of an accepted source is only that it prints without a quote.
  lemma AcceptedSourceUsable(net: NetText, p: PortConfig)
    requires ValidateDeclaration(net, p).None? && !IsPlain(p)
    ensures ParseSource(net, TrimSpace(p.source)).Some?
    ensures SourceUsable(net, p) <==> QUOTE !in SourceText(net, ParseSource(net, TrimSpace(p.source)).value)
  {
    hide TrimSpace, ValidatePort, ValidateProtocol, SourceText;
  }

  lemma AcceptedQuoteFree(net: NetText, p: PortConfig)
    requires ValidateDeclaration(net, p).None?
    ensures QUOTE !in p.port && QUOTE !in Protocol(p.protocol)
  {
    hide Protocol, ValidatePort, ValidateProtocol, ValidateSource, PortChar;
    AcceptedPortText(p.port);
    NotPortChars();
    AcceptedProtocolText(p.protocol);
  }

  function ValidateContainerPort(port: int): Option<Invalid> {
    if port < 1 || port > 65535 then Some(PortRange) else None
  }

  // Go's conversion to an unsigned 16-bit integer wraps around.
  function ToUint16(n: int): (r: nat)
    ensures r < 0x1_0000
  {
    n % 0x1_0000
  }

  // An accepted container port reaches Podman as the number that was written.
  lemma AcceptedPortConverts(port: int)
    requires ValidateContainerPort(port).None?
    ensures ToUint16(port) == port
  {
  }
}
