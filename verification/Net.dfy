/**
 * IP addresses as bit strings, most significant bit first. Reading and printing address
 * text stays abstract: a NetText value stands for the parsers and the printer of Go's net
 * and netip packages, and every result holds for all of them.
 */
module Net {
  import opened Wrappers

  function Zeros(n: nat): (z: seq<bool>)
    ensures |z| == n && forall i :: 0 <= i < n ==> !z[i]
  {
    seq(n, _ => false)
  }

  function Ones(n: nat): (z: seq<bool>)
    ensures |z| == n && forall i :: 0 <= i < n ==> z[i]
  {
    seq(n, _ => true)
  }

  type Bits = b: seq<bool> | |b| == 32 || |b| == 128 witness Zeros(32)

  // netip.Addr: the zone is only ever non-empty for IPv6.
  datatype Addr = Addr(bits: Bits, zone: string)

  datatype RawPrefix = Prefix(bits: Bits, len: nat)

  type Prefix = p: RawPrefix | p.len <= |p.bits| witness RawPrefix.Prefix(Zeros(32), 0)

  datatype Source = Host(addr: Addr) | Network(prefix: Prefix)

  datatype NetText = NetText(
    parseAddr: string -> Option<Addr>,
    parsePrefix: string -> Option<Prefix>,
    parseCIDR: string -> Option<Prefix>,
    show: Source -> string,
    showIP: Bits -> string)

  // An address text never reads back as another address, nor as a network.
  ghost predicate InjectivePrinter(net: NetText) {
    forall s: Source, t: Source :: net.show(s) == net.show(t) ==> s == t
  }

  predicate Is4(bits: Bits) {
    |bits| == 32
  }

  // netip.Prefix.Masked: host bits are cleared.
  function Masked(p: Prefix): (m: Prefix)
    ensures m.len == p.len && |m.bits| == |p.bits|
  {
    Prefix(p.bits[..p.len] + Zeros(|p.bits| - p.len), p.len)
  }

  // The network a prefix lies in: the bits behind its length are cleared.
  predicate NetworkOf(m: Prefix, p: Prefix) {
    && m.len == p.len && |m.bits| == |p.bits|
    && forall i | 0 <= i < |m.bits| :: m.bits[i] == (i < p.len && p.bits[i])
  }

  lemma MaskedIsNetwork(p: Prefix)
    ensures NetworkOf(Masked(p), p)
  {
  }

  // The addresses a prefix stands for (section 3.1 of RFC 4632).
  predicate Covers(p: Prefix, a: Bits) {
    |a| == |p.bits| && a[..p.len] == p.bits[..p.len]
  }

  lemma MaskedKeepsCover(p: Prefix, a: Bits)
    ensures Masked(Masked(p)) == Masked(p)
    ensures Covers(Masked(p), a) <==> Covers(p, a)
  {
    assert Masked(p).bits[..p.len] == p.bits[..p.len];
  }

  // Two prefixes normalise to the same text exactly when they cover the same addresses.
  lemma MaskedEqualIffSameCover(p: Prefix, q: Prefix)
    ensures Masked(p) == Masked(q) <==> forall a: Bits :: Covers(p, a) <==> Covers(q, a)
  {
    if Masked(p) == Masked(q) {
      forall a: Bits ensures Covers(p, a) <==> Covers(q, a) {
        MaskedKeepsCover(p, a);
        MaskedKeepsCover(q, a);
      }
    }
    if forall a: Bits :: Covers(p, a) <==> Covers(q, a) {
      assert Covers(p, p.bits) && Covers(q, q.bits);
      CoverBoundsLength(p, q);
      CoverBoundsLength(q, p);
      assert Masked(p) == Masked(q);
    }
  }

  // Flipping the first bit behind the mask leaves the cover of p, so q's mask is no longer.
  lemma CoverBoundsLength(p: Prefix, q: Prefix)
    requires Covers(q, p.bits)
    requires forall a: Bits :: Covers(p, a) ==> Covers(q, a)
    ensures q.len <= p.len
  {
    if p.len < q.len {
      var flipped: Bits := p.bits[p.len := !p.bits[p.len]];
      assert flipped[..q.len][p.len] != p.bits[..q.len][p.len];
      assert flipped[..p.len] == p.bits[..p.len];
      assert Covers(p, flipped);
      assert false;
    }
  }

  // net.IP.To4: a 4-byte address is itself, a 16-byte one only inside ::ffff:0:0/96.
  function To4(bits: Bits): (r: Option<Bits>)
    ensures r.Some? ==> |r.value| == 32
  {
    if |bits| == 32 then Some(bits)
    else if bits[..96] == Zeros(80) + Ones(16) then Some(bits[96..])
    else None
  }

  // The form net.IP compares and prints: 4 bytes where To4 gives them.
  function Canonical(bits: Bits): (r: Bits) {
    var four := To4(bits);
    if four.Some? then four.value else bits
  }

  // The 4-byte form of an address: itself, or the tail of an IPv4-mapped one, which begins
  // with 80 zeros and 16 ones.
  predicate FourOf(bits: Bits, four: Bits) {
    || (|bits| == 32 && four == bits)
    || (&& |bits| == 128 && |four| == 32
        && (forall i | 0 <= i < 80 :: !bits[i]) && (forall i | 80 <= i < 96 :: bits[i])
        && forall i | 0 <= i < 32 :: four[i] == bits[96 + i])
  }

  lemma To4InFull(bits: Bits)
    ensures To4(bits).Some? ==> FourOf(bits, To4(bits).value) && Canonical(bits) == To4(bits).value
    ensures To4(bits).None? ==> Canonical(bits) == bits && |bits| == 128
    ensures forall four: Bits :: FourOf(bits, four) <==> To4(bits) == Some(four)
  {
    if |bits| == 128 {
      MappedHead(bits);
      if To4(bits).Some? {
        forall four: Bits ensures FourOf(bits, four) <==> four == bits[96..] {
          assert FourOf(bits, four) ==> four == bits[96..];
        }
      }
    }
  }

  lemma MappedHead(bits: Bits)
    requires |bits| == 128
    ensures bits[..96] == Zeros(80) + Ones(16) <==>
            (forall i | 0 <= i < 80 :: !bits[i]) && (forall i | 80 <= i < 96 :: bits[i])
  {
    var head := Zeros(80) + Ones(16);
    assert forall i | 0 <= i < 96 :: bits[..96][i] == bits[i] && head[i] == (i >= 80);
  }

  // net.IPNet.Contains: the network and the address are brought to 4 bytes where possible,
  // a 16-byte mask keeping its last 32 bits.
  predicate NetContains(cidr: Prefix, ip: Bits) {
    var network := Masked(cidr).bits;
    var four := To4(network);
    var nn := if four.Some? then four.value else network;
    var cut := |network| - |nn|;
    var ones := if cidr.len <= cut then 0 else cidr.len - cut;
    var x := Canonical(ip);
    |x| == |nn| && x[..ones] == nn[..ones]
  }

  // An IPv4 address as the 16-byte form writes it.
  function Mapped(four: Bits): (r: Bits)
    requires |four| == 32
    ensures |r| == 128
  {
    Zeros(80) + Ones(16) + four
  }

  // Being in a subnet, in terms of the addresses the prefix covers. An IPv4 address is only
  // found in a subnet written in the 16-byte form when that subnet is IPv4-mapped throughout.
  predicate InSubnet(cidr: Prefix, ip: Bits) {
    var four := To4(ip);
    if |cidr.bits| == 32 then four.Some? && Covers(cidr, four.value)
    else if four.None? then Covers(cidr, ip)
    else 96 <= cidr.len && Covers(cidr, Mapped(four.value))
  }

  lemma MappedIsFour(four: Bits)
    requires |four| == 32
    ensures To4(Mapped(four)) == Some(four) && Mapped(four)[..96] == Zeros(80) + Ones(16)
  {
    assert Mapped(four)[..96] == Zeros(80) + Ones(16);
    assert Mapped(four)[96..] == four;
  }

  // Two 16-byte prefixes of at least 96 bits agree exactly when their heads and tails do.
  lemma SplitPrefix(a: seq<bool>, b: seq<bool>, cut: nat, n: nat)
    requires |a| == |b| && cut <= n <= |a|
    ensures a[..n] == b[..n] <==> a[..cut] == b[..cut] && a[cut..][..n - cut] == b[cut..][..n - cut]
  {
    if a[..n] == b[..n] {
      assert a[..cut] == a[..n][..cut] && b[..cut] == b[..n][..cut];
      assert a[cut..][..n - cut] == a[..n][cut..] && b[cut..][..n - cut] == b[..n][cut..];
    }
    assert a[..n] == a[..cut] + a[cut..][..n - cut];
    assert b[..n] == b[..cut] + b[cut..][..n - cut];
  }

  // The byte-by-byte test of net.IPNet.Contains is membership in the subnet.
  lemma ContainsIffInSubnet(cidr: Prefix, ip: Bits)
    ensures NetContains(cidr, ip) <==> InSubnet(cidr, ip)
  {
    var network := Masked(cidr).bits;
    var four := To4(ip);
    assert network[..cidr.len] == cidr.bits[..cidr.len];
    if |cidr.bits| == 128 {
      if To4(network).Some? {
        MappedNeeds96(cidr);
      }
      if four.Some? {
        MappedContains(cidr, four.value);
      } else {
        PlainContains(cidr, ip);
      }
    }
  }

  lemma MappedNeeds96(cidr: Prefix)
    requires |cidr.bits| == 128 && To4(Masked(cidr).bits).Some?
    ensures 96 <= cidr.len
  {
    var network := Masked(cidr).bits;
    assert network[..96][95] == (Zeros(80) + Ones(16))[95];
  }

  lemma MappedContains(cidr: Prefix, four: Bits)
    requires |cidr.bits| == 128 && |four| == 32
    ensures var network := Masked(cidr).bits;
            (To4(network).Some? && 96 <= cidr.len && four[..cidr.len - 96] == To4(network).value[..cidr.len - 96])
            <==> (96 <= cidr.len && Covers(cidr, Mapped(four)))
  {
    var network := Masked(cidr).bits;
    assert network[..cidr.len] == cidr.bits[..cidr.len];
    MappedIsFour(four);
    if 96 <= cidr.len {
      SplitPrefix(Mapped(four), network, 96, cidr.len);
      assert Mapped(four)[96..] == four;
    }
  }

  lemma PlainContains(cidr: Prefix, ip: Bits)
    requires |cidr.bits| == 128 && |ip| == 128 && To4(ip).None?
    ensures NetContains(cidr, ip) <==> Covers(cidr, ip)
  {
    var network := Masked(cidr).bits;
    assert network[..cidr.len] == cidr.bits[..cidr.len];
    if To4(network).Some? {
      MappedNeeds96(cidr);
      SplitPrefix(ip, network, 96, cidr.len);
    }
  }
}
