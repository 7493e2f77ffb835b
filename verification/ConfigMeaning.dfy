/**
 * What the checks of config.go accept, spelled out: numbers are read digit by digit, and the
 * accepted words and bounds are given as they are written.
 */
module ConfigMeaning {
  import opened Wrappers
  import opened Text
  import J = Json
  import opened Net
  import opened FirewallRules
  import opened ConfigRules
  import opened ContainerConfig

  function ReadDigit(c: char): Option<nat> {
    match c
    case '0' => Some(0)
    case '1' => Some(1)
    case '2' => Some(2)
    case '3' => Some(3)
    case '4' => Some(4)
    case '5' => Some(5)
    case '6' => Some(6)
    case '7' => Some(7)
    case '8' => Some(8)
    case '9' => Some(9)
    case _ => None
  }

  // Digits from left to right, after a number read so far.
  function ReadDigits(s: string, sofar: nat): Option<nat> {
    if s == "" then Some(sofar)
    else
      match ReadDigit(s[0])
      case None => None
      case Some(d) => ReadDigits(s[1..], 10 * sofar + d)
  }

  function ReadUnsigned(s: string): Option<nat> {
    if s == "" then None else ReadDigits(s, 0)
  }

  // A decimal number with an optional sign that fits 64 bits.
  function ReadNumber(s: string): Option<int> {
    if s != "" && s[0] == '-' then
      var n := ReadUnsigned(s[1..]);
      if n.None? || n.value > 9223372036854775808 then None
      else
        var magnitude: int := n.value;
        Some(-magnitude)
    else
      match ReadUnsigned(if s != "" && s[0] == '+' then s[1..] else s)
      case None => None
      case Some(n) => if n <= 9223372036854775807 then Some(n) else None
  }

  lemma {:induction false} ReadDigitsLast(s: string, c: char, sofar: nat)
    ensures ReadDigits(s + [c], sofar) ==
            match ReadDigits(s, sofar)
            case None => None
            case Some(n) => if ReadDigit(c).None? then None else Some(10 * n + ReadDigit(c).value)
  {
    hide ReadDigit;
    if s == "" {
      assert s + [c] == [c];
      assert [c][1..] == "";
    } else {
      assert (s + [c])[1..] == s[1..] + [c];
      if ReadDigit(s[0]).Some? {
        ReadDigitsLast(s[1..], c, 10 * sofar + ReadDigit(s[0]).value);
      }
    }
  }

  lemma DigitIs(c: char)
    ensures IsDigit(c) <==> ReadDigit(c).Some?
    ensures IsDigit(c) ==> ReadDigit(c) == Some(c as int - '0' as int)
  {
  }

  lemma {:induction false} ValueReads(s: string)
    ensures ReadDigits(s, 0) == if AllDigits(s) then Some(Value(s)) else None
    decreases |s|
  {
    hide ReadDigit, IsDigit;
    if s != "" {
      var i := |s| - 1;
      assert s == s[..i] + [s[i]];
      ValueReads(s[..i]);
      ReadDigitsLast(s[..i], s[i], 0);
      DigitIs(s[i]);
      assert AllDigits(s) <==> AllDigits(s[..i]) && IsDigit(s[i]);
    }
  }

  lemma AtoiReads(s: string)
    ensures Atoi(s) == ReadNumber(s)
  {
    hide ReadDigits, AllDigits, Value;
    if s != "" {
      ValueReads(s[1..]);
    }
    ValueReads(s);
  }

  // A number written into a hashed text reads back as itself.
  lemma WrittenNumberReads(n: int)
    requires -0x8000_0000_0000_0000 <= n <= 0x7FFF_FFFF_FFFF_FFFF
    ensures ReadNumber(J.Number(n)) == Some(n)
  {
    hide ReadDigits;
    var magnitude := if n < 0 then -n else n;
    DigitsRead(magnitude);
    assert n < 0 ==> J.Number(n)[1..] == J.Digits(magnitude);
    assert J.Digits(magnitude)[0] in J.Digits(magnitude);
  }

  lemma {:induction false} DigitsRead(n: nat)
    ensures ReadDigits(J.Digits(n), 0) == Some(n)
  {
    var last := (n % 10 + '0' as int) as char;
    DigitIs(last);
    var before := if n < 10 then "" else J.Digits(n / 10);
    if n >= 10 {
      DigitsRead(n / 10);
    }
    assert J.Digits(n) == before + [last];
    ReadDigitsLast(before, last, 0);
  }

  predicate PortNumber(s: string, n: int) {
    ReadNumber(TrimSpace(s)) == Some(n) && 1 <= n <= 65535
  }

  // Two port numbers in ascending order around the first dash.
  predicate PortRange(port: string, k: int, m: int, n: int) {
    && 0 <= k < |port| && port[k] == '-' && '-' !in port[..k]
    && PortNumber(port[..k], m) && PortNumber(port[k + 1..], n) && m <= n
  }

  ghost predicate PortMeant(raw: string) {
    var port := TrimSpace(raw);
    || ('-' !in port && exists n :: PortNumber(port, n))
    || exists k, m, n :: PortRange(port, k, m, n)
  }

  lemma PortNumberIs(s: string, n: int)
    ensures ParsePortNumber(s) == Ok(n) <==> PortNumber(s, n)
  {
    hide TrimSpace, Atoi, ReadNumber;
    AtoiReads(TrimSpace(s));
  }

  // A port is accepted exactly when it is one port number or an ascending range of them.
  lemma AcceptedPortInFull(raw: string)
    ensures ValidatePort(raw).None? <==> PortMeant(raw)
  {
    hide TrimSpace, ParsePortNumber, PortNumber, Cut;
    var port := TrimSpace(raw);
    NoNumberInNothing();
    var (start, end, hasRange) := Cut(port, '-');
    NumberIff(start);
    NumberIff(end);
    if hasRange {
      OneDash(port, start, end);
      if ParsePortNumber(start).Ok? && ParsePortNumber(end).Ok?
        && ParsePortNumber(start).value <= ParsePortNumber(end).value {
        assert PortRange(port, |start|, ParsePortNumber(start).value, ParsePortNumber(end).value);
      }
    }
  }

  lemma NumberIff(s: string)
    ensures forall n :: PortNumber(s, n) <==> ParsePortNumber(s) == Ok(n)
  {
    forall n ensures PortNumber(s, n) <==> ParsePortNumber(s) == Ok(n) {
      PortNumberIs(s, n);
    }
  }

  lemma OneDash(port: string, start: string, end: string)
    requires port == start + ['-'] + end && '-' !in start
    ensures port[..|start|] == start && port[|start| + 1..] == end && port[|start|] == '-'
    ensures forall k, m, n :: PortRange(port, k, m, n) ==> k == |start|
  {
    hide PortNumber;
    forall k | 0 <= k < |start| ensures port[k] != '-' {
      assert start[k] in start;
    }
    forall k | |start| < k <= |port| ensures '-' in port[..k] {
      assert port[..k][|start|] == '-';
    }
  }

  lemma NoNumberInNothing()
    ensures forall n :: !PortNumber("", n)
  {
    assert TrimSpace("") == "";
  }

  // A firewall declaration is accepted exactly when its port is, its protocol is blank or one
  // of the four, and its source is blank or can be read.
  lemma AcceptedDeclarationInFull(net: NetText, p: PortConfig)
    ensures ValidateDeclaration(net, p).None? <==>
            && PortMeant(p.port)
            && ToLower(TrimSpace(p.protocol)) in {"", "tcp", "udp", "sctp", "dccp"}
            && var source := TrimSpace(p.source);
               source == "" || net.parseAddr(source).Some? || net.parsePrefix(source).Some?
  {
    hide TrimSpace, ToLower, ValidatePort, PortMeant;
    AcceptedPortInFull(p.port);
  }

  /* ---- containers ---- */

  predicate CapabilityMeant(name: string) {
    var cap := TrimSpace(name);
    || cap == "ALL"
    || (&& |cap| > 4 && cap[0] == 'C' && cap[1] == 'A' && cap[2] == 'P' && cap[3] == '_'
        && forall i | 4 <= i < |cap| :: 'A' <= cap[i] <= 'Z' || '0' <= cap[i] <= '9' || cap[i] == '_')
  }

  lemma CapabilityInFull(name: string)
    ensures ValidCapability(name) <==> CapabilityMeant(name)
  {
    hide TrimSpace;
    var cap := TrimSpace(name);
    if |cap| > 4 && cap[0] == 'C' && cap[1] == 'A' && cap[2] == 'P' && cap[3] == '_' {
      assert cap[..4] == "CAP_" && cap == "CAP_" + cap[4..];
    }
  }

  // A container is accepted exactly when its ports are port numbers, its relabel options,
  // its network mode and its capabilities are known ones.
  lemma AcceptedContainerInFull(c: Config)
    ensures ValidContainer(c) <==>
            && (forall p | p in List(c.ports) :: 1 <= p.hostPort <= 65535 && 1 <= p.containerPort <= 65535)
            && (forall v | v in List(c.volumes) :: TrimSpace(v.selinux) in {"", "z", "Z"})
            && TrimSpace(c.networkMode) in {"", "host", "bridge", "none", "private", "slirp4netns", "pasta"}
            && (forall x | x in List(c.capAdd) :: CapabilityMeant(x))
            && (forall x | x in List(c.capDrop) :: CapabilityMeant(x))
  {
    hide TrimSpace, ValidCapability, CapabilityMeant, ValidNetworkMode, ValidRelabel;
    forall x: string ensures ValidCapability(x) <==> CapabilityMeant(x) {
      CapabilityInFull(x);
    }
    forall m: string ensures ValidRelabel(m) <==> TrimSpace(m) in {"", "z", "Z"} {
      RelabelInFull(m);
    }
    NetworkModeInFull(c.networkMode);
  }

  lemma RelabelInFull(m: string)
    ensures ValidRelabel(m) <==> TrimSpace(m) in {"", "z", "Z"}
  {
    hide TrimSpace;
  }

  lemma NetworkModeInFull(m: string)
    ensures ValidNetworkMode(m) <==> TrimSpace(m) in {"", "host", "bridge", "none", "private", "slirp4netns", "pasta"}
  {
    hide TrimSpace;
  }
}
