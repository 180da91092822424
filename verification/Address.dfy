/** Addresses of VMs (internal/network/ip.go): the allocator, the check of an address given by hand,
    the MAC derived from an address, and the lookup of a VM by MAC (internal/network/dhcp.go). */
module Address {
  import opened Text
  import opened Records

  type Octet = x: int | 0 <= x < 256

  datatype Quad = Quad(a: Octet, b: Octet, c: Octet, d: Octet)

  /** The subnet as net.ParseCIDR reads it: the address as written, and the prefix length. */
  datatype Config = Config(base: Quad, prefix: nat, bridgeIP: string, start: int)

  predicate ValidConfig(cfg: Config) {
    cfg.prefix <= 32
  }

  // ---------------------------------------------------------------- dotted quads

  function Format(q: Quad): string {
    Decimal(q.a) + "." + Decimal(q.b) + "." + Decimal(q.c) + "." + Decimal(q.d)
  }

  /** "%d" */
  function IntText(i: int): string {
    if i < 0 then "-" + Decimal(-i) else Decimal(i)
  }

  predicate IsNumeral(s: string) {
    && s != "" && (forall i :: 0 <= i < |s| ==> IsDigit(s[i]))
    && (|s| > 1 ==> s[0] != '0')
  }

  function ParseOctet(s: string): Option<Octet> {
    if IsNumeral(s) && DigitsValue(s) < 256 then Some(DigitsValue(s)) else None
  }

  /** net.ParseIP on dotted quads: four octets without superfluous zeros. */
  function ParseQuad(s: string): Option<Quad> {
    var parts := Split(s, '.');
    if |parts| != 4 then None
    else
      match (ParseOctet(parts[0]), ParseOctet(parts[1]), ParseOctet(parts[2]), ParseOctet(parts[3]))
      case (Some(a), Some(b), Some(c), Some(d)) => Some(Quad(a, b, c, d))
      case _ => None
  }

  lemma NoDot(n: nat)
    ensures '.' !in Decimal(n)
  {
  }

  lemma SplitFormat(a: string, b: string, c: string, d: string)
    requires '.' !in a && '.' !in b && '.' !in c && '.' !in d
    ensures Split(a + "." + b + "." + c + "." + d, '.') == [a, b, c, d]
  {
    var cd := c + ['.'] + d;
    var bcd := b + ['.'] + cd;
    assert a + "." + b + "." + c + "." + d == a + ['.'] + bcd;
    SplitConcat(a, bcd, '.');
    SplitConcat(b, cd, '.');
    SplitConcat(c, d, '.');
    SplitSingle(a, '.');
    SplitSingle(b, '.');
    SplitSingle(c, '.');
    SplitSingle(d, '.');
  }

  lemma SplitQuad(q: Quad)
    ensures Split(Format(q), '.') == [Decimal(q.a), Decimal(q.b), Decimal(q.c), Decimal(q.d)]
  {
    NoDot(q.a);
    NoDot(q.b);
    NoDot(q.c);
    NoDot(q.d);
    SplitFormat(Decimal(q.a), Decimal(q.b), Decimal(q.c), Decimal(q.d));
  }

  lemma ParseOctetExact(s: string, o: Octet)
    ensures ParseOctet(s) == Some(o) <==> s == Decimal(o)
  {
    if IsNumeral(s) {
      CanonicalNumeral(s);
    }
    if s == Decimal(o) {
      DecimalValue(o);
      DecimalLeading(o);
    }
  }

  lemma {:induction false} DecimalLeading(n: nat)
    ensures |Decimal(n)| > 1 ==> Decimal(n)[0] != '0'
  {
    if n >= 10 {
      DecimalLeading(n / 10);
    }
  }

  /** Reading is the exact inverse of printing: a text denotes a quad if and only if it prints it. */
  lemma ParseQuadExact(s: string, q: Quad)
    ensures ParseQuad(s) == Some(q) <==> s == Format(q)
  {
    if s == Format(q) {
      SplitQuad(q);
      ParseOctetExact(Decimal(q.a), q.a);
      ParseOctetExact(Decimal(q.b), q.b);
      ParseOctetExact(Decimal(q.c), q.c);
      ParseOctetExact(Decimal(q.d), q.d);
    }
    if ParseQuad(s) == Some(q) {
      var parts := Split(s, '.');
      ParseOctetExact(parts[0], q.a);
      ParseOctetExact(parts[1], q.b);
      ParseOctetExact(parts[2], q.c);
      ParseOctetExact(parts[3], q.d);
      JoinSplit(s, '.');
      JoinFour(parts[0], parts[1], parts[2], parts[3]);
      assert parts == [parts[0], parts[1], parts[2], parts[3]];
    }
  }

  lemma JoinFour(a: string, b: string, c: string, d: string)
    ensures Join([a, b, c, d], '.') == a + "." + b + "." + c + "." + d
  {
    assert [a, b, c, d][1..] == [b, c, d] && [b, c, d][1..] == [c, d] && [c, d][1..] == [d];
    assert Join([c, d], '.') == c + "." + d;
    assert Join([b, c, d], '.') == b + "." + (c + "." + d);
    assert a + "." + (b + "." + (c + "." + d)) == a + "." + b + "." + c + "." + d;
  }

  lemma FormatInjective(p: Quad, q: Quad)
    requires Format(p) == Format(q)
    ensures p == q
  {
    ParseQuadExact(Format(p), p);
    ParseQuadExact(Format(p), q);
  }

  lemma IntTextInjective(i: int, j: int)
    requires IntText(i) == IntText(j)
    ensures i == j
  {
    if i < 0 && j < 0 {
      assert Decimal(-i) == IntText(i)[1..] == IntText(j)[1..] == Decimal(-j);
      DecimalValue(-i);
      DecimalValue(-j);
    } else if i >= 0 && j >= 0 {
      DecimalValue(i);
      DecimalValue(j);
    }
  }

  // ---------------------------------------------------------------- masks

  /** How many of the prefix's bits fall into octet k. */
  function MaskBits(prefix: nat, k: nat): (m: nat)
    requires k < 4
    ensures m <= 8
  {
    if prefix <= 8 * k then 0 else if prefix >= 8 * k + 8 then 8 else prefix - 8 * k
  }

  /** The number of values of an octet that share its first m bits: 2 to the power 8 - m. */
  function Block(m: nat): nat
    requires m <= 8
  {
    if m == 0 then 256 else if m == 1 then 128 else if m == 2 then 64 else if m == 3 then 32
    else if m == 4 then 16 else if m == 5 then 8 else if m == 6 then 4 else if m == 7 then 2 else 1
  }

  /** o & mask, for a mask octet whose first m bits are set */
  function MaskOctet(o: Octet, m: nat): (n: Octet)
    requires m <= 8
    ensures n <= o < n + Block(m) <= 256
  {
    MaskedOctet(o, m);
    o - o % Block(m)
  }

  lemma MaskedOctet(o: Octet, m: nat)
    requires m <= 8
    ensures Block(m) > 0
    ensures 0 <= o - o % Block(m) <= o < o - o % Block(m) + Block(m) <= 256
  {
    if m == 0 {} else if m == 1 {} else if m == 2 {} else if m == 3 {}
    else if m == 4 {} else if m == 5 {} else if m == 6 {} else if m == 7 {} else {}
  }

  /** network | ^mask, for an octet of a network address */
  function FillOctet(n: Octet, m: nat): Octet
    requires m <= 8 && n + Block(m) <= 256
  {
    n + (Block(m) - 1)
  }

  function Mask(q: Quad, prefix: nat): Quad {
    Quad(MaskOctet(q.a, MaskBits(prefix, 0)), MaskOctet(q.b, MaskBits(prefix, 1)),
         MaskOctet(q.c, MaskBits(prefix, 2)), MaskOctet(q.d, MaskBits(prefix, 3)))
  }

  function Network(cfg: Config): Quad {
    Mask(cfg.base, cfg.prefix)
  }

  function Broadcast(cfg: Config): Quad {
    var n := Network(cfg);
    Quad(FillOctet(n.a, MaskBits(cfg.prefix, 0)), FillOctet(n.b, MaskBits(cfg.prefix, 1)),
         FillOctet(n.c, MaskBits(cfg.prefix, 2)), FillOctet(n.d, MaskBits(cfg.prefix, 3)))
  }

  /** ipNet.Contains */
  predicate Contains(cfg: Config, q: Quad) {
    Mask(q, cfg.prefix) == Network(cfg)
  }

  // ---------------------------------------------------------------- prefixes as numbers

  function Value(q: Quad): nat {
    ((q.a * 256 + q.b) * 256 + q.c) * 256 + q.d
  }

  /** The number of addresses of a subnet, section 3.1 of RFC 4632: 2 to the power 32 - prefix. */
  function Size(prefix: nat): nat
    requires prefix <= 32
  {
    Block(MaskBits(prefix, 0)) * Block(MaskBits(prefix, 1)) * Block(MaskBits(prefix, 2)) * Block(MaskBits(prefix, 3))
  }

  function Pow2(n: nat): nat {
    if n == 0 then 1 else 2 * Pow2(n - 1)
  }

  lemma {:induction false} SizeIsPowerOfTwo(prefix: nat)
    requires prefix <= 32
    ensures Size(prefix) == Pow2(32 - prefix)
    decreases 32 - prefix
  {
    if prefix < 32 {
      SizeIsPowerOfTwo(prefix + 1);
      SizeHalves(prefix);
    }
  }

  lemma SizeHalves(prefix: nat)
    requires prefix < 32
    ensures Size(prefix) == 2 * Size(prefix + 1)
  {
    if prefix < 8 {
    } else if prefix < 16 {
    } else if prefix < 24 {
    }
  }

  lemma MaskIsMultiple(o: Octet, m: nat) returns (t: nat)
    requires m <= 8
    ensures MaskOctet(o, m) == t * Block(m)
  {
    t := o / Block(m);
    if m == 0 {} else if m == 1 {} else if m == 2 {} else if m == 3 {}
    else if m == 4 {} else if m == 5 {} else if m == 6 {} else if m == 7 {} else {}
  }

  lemma MultiplesApart(s: nat, t: nat, b: nat)
    requires s < t
    ensures t * b >= s * b + b
  {
    var d := t - s - 1;
    assert t * b == (s + 1 + d) * b == s * b + b + d * b;
    assert d * b >= 0;
  }

  lemma MaskSame(o: Octet, x: Octet, m: nat)
    requires m <= 8
    ensures MaskOctet(o, m) == MaskOctet(x, m) <==> MaskOctet(x, m) <= o < MaskOctet(x, m) + Block(m)
  {
    var s := MaskIsMultiple(o, m);
    var t := MaskIsMultiple(x, m);
    hide MaskOctet, Block;
    if s < t {
      MultiplesApart(s, t, Block(m));
    } else if t < s {
      MultiplesApart(t, s, Block(m));
    }
  }

  lemma MaskEnds(o: Octet)
    ensures MaskOctet(o, 8) == o && FillOctet(o, 8) == o
    ensures MaskOctet(o, 0) == 0 && FillOctet(0, 0) == 255
  {
  }

  /** A subnet is an interval: it contains exactly the addresses from its network address to its
      broadcast address, its base is one of them, and it is as large as its prefix says. */
  lemma SubnetIsInterval(cfg: Config, q: Quad)
    requires ValidConfig(cfg)
    ensures Contains(cfg, q) <==> Value(Network(cfg)) <= Value(q) <= Value(Broadcast(cfg))
    ensures Contains(cfg, cfg.base)
    ensures Value(Broadcast(cfg)) - Value(Network(cfg)) + 1 == Pow2(32 - cfg.prefix)
  {
    SizeIsPowerOfTwo(cfg.prefix);
    var p, x := cfg.prefix, cfg.base;
    MaskSame(q.a, x.a, MaskBits(p, 0));
    MaskSame(q.b, x.b, MaskBits(p, 1));
    MaskSame(q.c, x.c, MaskBits(p, 2));
    MaskSame(q.d, x.d, MaskBits(p, 3));
    IntervalByOctets(cfg, q);
  }

  lemma SizeByOctet(p: nat)
    requires p <= 32
    ensures p <= 8 ==> Size(p) == Block(p) * 0x100_0000
    ensures 8 < p <= 16 ==> Size(p) == Block(p - 8) * 0x1_0000
    ensures 16 < p <= 24 ==> Size(p) == Block(p - 16) * 0x100
    ensures 24 < p ==> Size(p) == Block(p - 24)
  {
  }

  /** Order of numbers by their octets, from the first that differs. */
  lemma ValueOrder(p: Quad, q: Quad)
    ensures p.a < q.a ==> Value(p) < Value(q)
    ensures p.a == q.a && p.b < q.b ==> Value(p) < Value(q)
    ensures p.a == q.a && p.b == q.b && p.c < q.c ==> Value(p) < Value(q)
    ensures p.a == q.a && p.b == q.b && p.c == q.c ==> Value(q) - Value(p) == q.d - p.d
  {
    assert Value(q) - Value(p) == (q.a - p.a) * 0x100_0000 + (q.b - p.b) * 0x1_0000 + (q.c - p.c) * 0x100 + (q.d - p.d);
  }

  /** An interval whose octets above some place are fixed and whose octets below it are free. */
  lemma IntervalOf(n: Quad, b: Quad, q: Quad)
    requires n.a <= b.a && n.b <= b.b && n.c <= b.c && n.d <= b.d
    requires n.a < b.a ==> n.b == n.c == n.d == 0 && b.b == b.c == b.d == 255
    requires n.b < b.b ==> n.c == n.d == 0 && b.c == b.d == 255
    requires n.c < b.c ==> n.d == 0 && b.d == 255
    ensures Value(n) <= Value(q) <= Value(b) <==>
      (n.a <= q.a <= b.a && n.b <= q.b <= b.b && n.c <= q.c <= b.c && n.d <= q.d <= b.d)
  {
    ValueOrder(n, q);
    ValueOrder(q, n);
    ValueOrder(b, q);
    ValueOrder(q, b);
    hide Value;
  }

  lemma IntervalByOctets(cfg: Config, q: Quad)
    requires ValidConfig(cfg)
    ensures var n, b := Network(cfg), Broadcast(cfg);
      (Value(n) <= Value(q) <= Value(b) <==>
        n.a <= q.a <= b.a && n.b <= q.b <= b.b && n.c <= q.c <= b.c && n.d <= q.d <= b.d)
      && Value(b) - Value(n) + 1 == Size(cfg.prefix)
  {
    var p, x := cfg.prefix, cfg.base;
    var n, b := Network(cfg), Broadcast(cfg);
    SizeByOctet(p);
    MaskEnds(x.a);
    MaskEnds(x.b);
    MaskEnds(x.c);
    MaskEnds(x.d);
    hide Block, MaskOctet, Size;
    IntervalOf(n, b, q);
  }

  /** ... and it is aligned: its network address is a multiple of its size. */
  lemma NetworkAligned(cfg: Config) returns (k: nat)
    requires ValidConfig(cfg)
    ensures Value(Network(cfg)) == k * Size(cfg.prefix)
  {
    var p, x := cfg.prefix, cfg.base;
    SizeByOctet(p);
    MaskEnds(x.a);
    MaskEnds(x.b);
    MaskEnds(x.c);
    MaskEnds(x.d);
    hide Block, MaskOctet, Size;
    if p <= 8 {
      k := AlignedOctet(0, x.a, p);
      MulAssociates(k, Block(p), 0x100_0000);
    } else if p <= 16 {
      k := AlignedOctet(x.a, x.b, p - 8);
      MulAssociates(k, Block(p - 8), 0x1_0000);
    } else if p <= 24 {
      k := AlignedOctet(x.a * 256 + x.b, x.c, p - 16);
      MulAssociates(k, Block(p - 16), 0x100);
    } else {
      k := AlignedOctet((x.a * 256 + x.b) * 256 + x.c, x.d, p - 24);
    }
  }

  lemma MulAssociates(k: nat, b: nat, w: nat)
    ensures k * b * w == k * (b * w)
  {
  }

  lemma AlignedOctet(hi: nat, o: Octet, m: nat) returns (k: nat)
    requires m <= 8
    ensures hi * 256 + MaskOctet(o, m) == k * Block(m)
  {
    var t := MaskIsMultiple(o, m);
    var c := BlockDivides(m);
    hide MaskOctet, Block;
    k := hi * c + t;
    MulAssociates(hi, c, Block(m));
    Distributes(hi * c, t, Block(m));
  }

  lemma Distributes(x: nat, y: nat, b: nat)
    ensures (x + y) * b == x * b + y * b
  {
  }

  lemma BlockDivides(m: nat) returns (c: nat)
    requires m <= 8
    ensures c * Block(m) == 256
  {
    c := if m == 0 then 1 else if m == 1 then 2 else if m == 2 then 4 else if m == 3 then 8
      else if m == 4 then 16 else if m == 5 then 32 else if m == 6 then 64 else if m == 7 then 128 else 256;
  }

  lemma ValueInjective(p: Quad, q: Quad)
    ensures Value(p) == Value(q) <==> p == q
  {
    ValueOrder(p, q);
    ValueOrder(q, p);
  }

  // ---------------------------------------------------------------- checking a given address

  datatype Verdict = Accepted | NotIPv4 | OutsideSubnet | IsGateway | IsNetwork | IsBroadcast | InUse

  /** An address a VM may have: inside the subnet, and neither its first nor its last address unless
      the subnet is a single address. */
  predicate Usable(cfg: Config, q: Quad)
    requires ValidConfig(cfg)
  {
    if cfg.prefix == 32 then Value(q) == Value(cfg.base)
    else Value(Network(cfg)) < Value(q) < Value(Broadcast(cfg))
  }

  ghost predicate Accepts(cfg: Config, used: set<string>, text: string)
    requires ValidConfig(cfg)
  {
    exists q :: text == Format(q) && Usable(cfg, q) && text != cfg.bridgeIP && text !in used
  }

  /** From the network to the broadcast address, both included. */
  predicate Within(cfg: Config, q: Quad) {
    Value(Network(cfg)) <= Value(q) <= Value(Broadcast(cfg))
  }

  lemma EndsWithin(cfg: Config)
    requires ValidConfig(cfg)
    ensures Within(cfg, Network(cfg)) && Within(cfg, Broadcast(cfg))
  {
    SubnetIsInterval(cfg, cfg.base);
    PowerPositive(32 - cfg.prefix);
    hide Network, Broadcast, Value, Contains;
  }

  lemma {:induction false} PowerPositive(n: nat)
    ensures Pow2(n) >= 1
  {
    if n > 0 {
      PowerPositive(n - 1);
    }
  }

  function At(q: Quad, i: nat): Octet
    requires i < 4
  {
    if i == 0 then q.a else if i == 1 then q.b else if i == 2 then q.c else q.d
  }

  /** ValidateIP accepts exactly the unused usable addresses other than the gateway's. */
  method ValidateIP(text: string, cfg: Config, used: set<string>) returns (r: Verdict)
    requires ValidConfig(cfg)
    ensures r == Accepted <==> Accepts(cfg, used, text)
    ensures r == NotIPv4 <==> forall q :: text != Format(q)
    ensures r == OutsideSubnet <==> exists q :: text == Format(q) && !Within(cfg, q)
    ensures r == IsGateway <==> text == cfg.bridgeIP && exists q :: text == Format(q) && Within(cfg, q)
    ensures r == IsNetwork <==> cfg.prefix < 32 && text != cfg.bridgeIP && text == Format(Network(cfg))
    ensures r == IsBroadcast <==>
      cfg.prefix < 32 && text != cfg.bridgeIP && text == Format(Broadcast(cfg)) && text != Format(Network(cfg))
    ensures r == InUse <==>
      text in used && text != cfg.bridgeIP && exists q :: text == Format(q) && Usable(cfg, q)
  {
    hide ParseQuad, Format, Value, Mask, Broadcast;
    var parsed := ParseQuad(text);
    if parsed == None {
      forall q ensures text != Format(q) {
        ParseQuadExact(text, q);
      }
      return NotIPv4;
    }
    var ip := parsed.value;
    OnlyQuad(text, ip);
    SubnetIsInterval(cfg, ip);
    EndsWithin(cfg);
    if cfg.prefix == 32 {
      SingleAddress(cfg);
    }
    if !Contains(cfg, ip) {
      return OutsideSubnet;
    }
    if text == cfg.bridgeIP {
      return IsGateway;
    }
    var networkIP := Network(cfg);
    ValueInjective(ip, networkIP);
    if cfg.prefix < 32 {
      if ip == networkIP {
        return IsNetwork;
      }
      var broadcast := FillBroadcast(cfg);
      ValueInjective(ip, broadcast);
      if ip == broadcast {
        return IsBroadcast;
      }
    }
    if text in used {
      return InUse;
    }
    return Accepted;
  }

  /** The broadcast address, octet by octet: the network's with all host bits set. */
  method FillBroadcast(cfg: Config) returns (q: Quad)
    ensures q == Broadcast(cfg)
  {
    var networkIP := Network(cfg);
    var broadcast := new Octet[4](_ => 0);
    for i := 0 to 4
      invariant forall j :: 0 <= j < i ==> broadcast[j] == At(Broadcast(cfg), j)
    {
      broadcast[i] := FillOctet(At(networkIP, i), MaskBits(cfg.prefix, i));
    }
    return Quad(broadcast[0], broadcast[1], broadcast[2], broadcast[3]);
  }

  lemma OnlyQuad(text: string, ip: Quad)
    requires ParseQuad(text) == Some(ip)
    ensures text == Format(ip) && forall q :: text == Format(q) ==> q == ip
  {
    ParseQuadExact(text, ip);
    forall q | text == Format(q) ensures q == ip {
      ParseQuadExact(text, q);
    }
  }

  lemma SingleAddress(cfg: Config)
    requires cfg.prefix == 32
    ensures Network(cfg) == cfg.base == Broadcast(cfg)
  {
    MaskEnds(cfg.base.a);
    MaskEnds(cfg.base.b);
    MaskEnds(cfg.base.c);
    MaskEnds(cfg.base.d);
  }

  // ---------------------------------------------------------------- allocating an address

  /** The candidate the allocator tries for last octet i. */
  function Candidate(cfg: Config, i: int): string {
    Decimal(cfg.base.a) + "." + Decimal(cfg.base.b) + "." + Decimal(cfg.base.c) + "." + IntText(i)
  }

  function FirstFree(cfg: Config, used: set<string>, i: int): Option<string>
    decreases 255 - i
  {
    if i > 254 then None
    else if Candidate(cfg, i) !in used then Some(Candidate(cfg, i))
    else FirstFree(cfg, used, i + 1)
  }

  function Allocated(cfg: Config, used: set<string>): Option<string> {
    FirstFree(cfg, used, cfg.start)
  }

  /** AllocateIP: complete and least. It fails exactly when every candidate is used, and otherwise
      returns the candidate with the smallest unused last octet. */
  method AllocateIP(cfg: Config, used: set<string>) returns (r: Option<string>)
    ensures r == Allocated(cfg, used)
    ensures r == None <==> forall i :: cfg.start <= i <= 254 ==> Candidate(cfg, i) in used
    ensures r.Some? ==> FirstCandidate(cfg, used, r.value)
  {
    AllocatedIsFirst(cfg, used);
    hide FirstCandidate, Candidate;
    var i := cfg.start;
    while i <= 254
      invariant forall j :: cfg.start <= j < i && j <= 254 ==> Candidate(cfg, j) in used
      invariant Allocated(cfg, used) == FirstFree(cfg, used, i)
    {
      var candidate := Candidate(cfg, i);
      if candidate !in used {
        return Some(candidate);
      }
      i := i + 1;
    }
    return None;
  }

  /** The address is that of the smallest unused last octet, from the start to 254, behind the first three
      octets of the subnet's address as written. */
  ghost predicate FirstCandidate(cfg: Config, used: set<string>, ip: string) {
    exists i :: (
      && cfg.start <= i <= 254 && ip == Candidate(cfg, i) && ip !in used
      && (i >= 0 ==> ip == Format(Quad(cfg.base.a, cfg.base.b, cfg.base.c, i)))
      && forall j :: cfg.start <= j < i ==> Candidate(cfg, j) in used)
  }

  lemma {:induction false} FirstFreeIsFirst(cfg: Config, used: set<string>, i: int)
    requires cfg.start <= i && forall j :: cfg.start <= j < i ==> Candidate(cfg, j) in used
    ensures FirstFree(cfg, used, i).Some? ==> FirstCandidate(cfg, used, FirstFree(cfg, used, i).value)
    decreases 255 - i
  {
    if i <= 254 {
      if Candidate(cfg, i) in used {
        FirstFreeIsFirst(cfg, used, i + 1);
      } else {
        assert Candidate(cfg, i) !in used;
      }
    }
  }

  lemma AllocatedIsFirst(cfg: Config, used: set<string>)
    ensures Allocated(cfg, used).Some? ==> FirstCandidate(cfg, used, Allocated(cfg, used).value)
  {
    FirstFreeIsFirst(cfg, used, cfg.start);
  }

  lemma {:induction false} FirstFreeExact(cfg: Config, used: set<string>, i: int)
    ensures FirstFree(cfg, used, i) == None ==> forall j :: i <= j <= 254 ==> Candidate(cfg, j) in used
    ensures FirstFree(cfg, used, i).Some? ==> exists k :: (
      i <= k <= 254 && FirstFree(cfg, used, i).value == Candidate(cfg, k) && Candidate(cfg, k) !in used)
    decreases 255 - i
  {
    if i <= 254 && Candidate(cfg, i) in used {
      FirstFreeExact(cfg, used, i + 1);
    }
  }

  lemma CandidateInjective(cfg: Config, i: int, j: int)
    requires Candidate(cfg, i) == Candidate(cfg, j)
    ensures i == j
  {
    var pre := Decimal(cfg.base.a) + "." + Decimal(cfg.base.b) + "." + Decimal(cfg.base.c) + ".";
    assert Candidate(cfg, i)[|pre|..] == IntText(i) && Candidate(cfg, j)[|pre|..] == IntText(j);
    IntTextInjective(i, j);
  }

  /** Fewer used addresses than candidates leave one free. */
  lemma FewUsedSuffice(cfg: Config, used: set<string>)
    requires |used| < 255 - cfg.start
    ensures Allocated(cfg, used).Some?
  {
    if Allocated(cfg, used) == None {
      FirstFreeExact(cfg, used, cfg.start);
      Pigeonhole(cfg, used, cfg.start);
    }
  }

  lemma {:induction false} Pigeonhole(cfg: Config, used: set<string>, i: int)
    requires i <= 255
    requires forall j :: i <= j <= 254 ==> Candidate(cfg, j) in used
    ensures |used| >= 255 - i
    decreases 255 - i
  {
    if i <= 254 {
      var rest := used - {Candidate(cfg, i)};
      forall j | i + 1 <= j <= 254 ensures Candidate(cfg, j) in rest {
        if Candidate(cfg, j) == Candidate(cfg, i) {
          CandidateInjective(cfg, j, i);
        }
      }
      Pigeonhole(cfg, rest, i + 1);
    }
  }

  // ---------------------------------------------------------------- the two checkers agree

  /** The bridge address that init derives: network address plus one in the last octet, a byte. */
  function Gateway(cfg: Config): Quad {
    Network(cfg).(d := (Network(cfg).d + 1) % 256)
  }

  /** The configuration with the bridge address that init derives from the subnet. */
  function Derived(cfg: Config): Config {
    cfg.(bridgeIP := Format(Gateway(cfg)))
  }

  lemma DerivedSame(cfg: Config)
    ensures var d := Derived(cfg);
      ValidConfig(d) == ValidConfig(cfg) && d.bridgeIP == Format(Gateway(d))
  {
    hide Mask, Format;
    assert Network(Derived(cfg)) == Network(cfg);
  }

  /** The derived address can serve as the gateway, inside the subnet and distinct from its network and
      broadcast addresses, exactly for prefixes up to 30 bits. */
  lemma GatewayUsable(cfg: Config)
    requires ValidConfig(cfg)
    ensures Usable(cfg, Gateway(cfg)) && cfg.prefix < 32 <==> cfg.prefix <= 30
  {
    IntervalByOctets(cfg, cfg.base);
    SizeIsPowerOfTwo(cfg.prefix);
    if cfg.prefix < 32 {
      GatewayFollowsNetwork(cfg);
      PowersFromTwo(32 - cfg.prefix);
      hide Network, Broadcast, Value, Size, Pow2, Gateway;
    }
  }

  lemma GatewayFollowsNetwork(cfg: Config)
    requires ValidConfig(cfg) && cfg.prefix < 32
    ensures Value(Gateway(cfg)) == Value(Network(cfg)) + 1
  {
    LastOctets(cfg);
    ValueOrder(Network(cfg), Gateway(cfg));
    hide Network, Broadcast, Value;
  }

  lemma {:induction false} PowersFromTwo(n: nat)
    requires n >= 1
    ensures Pow2(n) > 2 <==> n >= 2
  {
    if n > 1 {
      PowersFromTwo(n - 1);
    }
  }

  predicate BaseBlock(cfg: Config) {
    var n := Network(cfg);
    n.a == cfg.base.a && n.b == cfg.base.b && n.c == cfg.base.c
  }

  /** When every address the allocator can return is one the checker accepts: the candidates must
      not leave the subnet, and must start above the network and gateway addresses whenever these
      share the candidates' first three octets. */
  predicate AllocatesUsable(cfg: Config) {
    || cfg.start > 254
    || (cfg.prefix == 32 && cfg.start == 254 && cfg.base.d == 254)
    || (cfg.prefix < 32 && cfg.start >= 0 && Broadcast(cfg).d == 255
        && (BaseBlock(cfg) ==> cfg.start >= Network(cfg).d + 2))
  }

  function CandidateQuad(cfg: Config, i: Octet): Quad {
    cfg.base.(d := i)
  }

  predicate CandidatePasses(cfg: Config, i: int)
    requires ValidConfig(cfg)
  {
    0 <= i < 256 && Usable(cfg, CandidateQuad(cfg, i)) && CandidateQuad(cfg, i) != Gateway(cfg)
  }

  lemma CandidateAccepted(cfg: Config, used: set<string>, i: int)
    requires ValidConfig(cfg) && cfg.bridgeIP == Format(Gateway(cfg)) && i <= 254
    requires Candidate(cfg, i) !in used
    ensures Accepts(cfg, used, Candidate(cfg, i)) <==> CandidatePasses(cfg, i)
  {
    if i < 0 {
      NegativeCandidate(cfg, i);
    } else {
      var q := CandidateQuad(cfg, i);
      assert Candidate(cfg, i) == Format(q);
      ParseQuadExact(Format(q), q);
      OnlyQuad(Format(q), q);
      if Format(q) == Format(Gateway(cfg)) {
        FormatInjective(q, Gateway(cfg));
      }
    }
  }

  lemma NegativeCandidate(cfg: Config, i: int)
    requires i < 0
    ensures forall q :: Candidate(cfg, i) != Format(q)
  {
    NoDot(cfg.base.a);
    NoDot(cfg.base.b);
    NoDot(cfg.base.c);
    NoDot(-i);
    SplitFormat(Decimal(cfg.base.a), Decimal(cfg.base.b), Decimal(cfg.base.c), IntText(i));
    assert !IsDigit(IntText(i)[0]);
    forall q ensures Candidate(cfg, i) != Format(q) {
      SplitQuad(q);
    }
  }

  lemma MaskEven(o: Octet, m: nat)
    requires m < 8
    ensures MaskOctet(o, m) % 2 == 0 && Block(m) % 2 == 0
  {
    if m == 0 {} else if m == 1 {} else if m == 2 {} else if m == 3 {}
    else if m == 4 {} else if m == 5 {} else if m == 6 {} else {}
  }

  predicate BroadcastBlock(cfg: Config) {
    var b := Broadcast(cfg);
    b.a == cfg.base.a && b.b == cfg.base.b && b.c == cfg.base.c
  }

  /** The test of one candidate, on last octets only: n and b are those of the network and broadcast
      addresses, and the flags say whether these share the candidates' first three octets. */
  predicate OctetPasses(n: int, b: int, inBase: bool, inBroadcast: bool, single: bool, i: int) {
    && 0 <= i && n <= i <= b
    && (single || (!(inBase && i == n) && !(inBroadcast && i == b)))
    && !(inBase && i == (n + 1) % 256)
  }

  predicate PassesByOctet(cfg: Config, i: int) {
    OctetPasses(Network(cfg).d, Broadcast(cfg).d, BaseBlock(cfg), BroadcastBlock(cfg), cfg.prefix == 32, i)
  }

  lemma CandidateContained(cfg: Config, i: Octet)
    requires ValidConfig(cfg)
    ensures Contains(cfg, CandidateQuad(cfg, i)) <==> Network(cfg).d <= i <= Broadcast(cfg).d
  {
    MaskSame(i, cfg.base.d, MaskBits(cfg.prefix, 3));
  }

  lemma CandidatePassesByOctet(cfg: Config, i: int)
    requires ValidConfig(cfg) && i <= 254
    ensures CandidatePasses(cfg, i) <==> PassesByOctet(cfg, i)
  {
    if 0 <= i {
      var q := CandidateQuad(cfg, i);
      UsableByQuads(cfg, q);
      CandidateContained(cfg, i);
      CandidateSpecial(cfg, i);
      if cfg.prefix == 32 {
        SingleAddress(cfg);
      }
      hide Mask, Broadcast, Network, Gateway, BaseBlock, BroadcastBlock, Usable;
    }
  }

  lemma UsableByQuads(cfg: Config, q: Quad)
    requires ValidConfig(cfg)
    ensures Usable(cfg, q) <==>
      Contains(cfg, q) && (cfg.prefix < 32 ==> q != Network(cfg) && q != Broadcast(cfg))
  {
    SubnetIsInterval(cfg, q);
    ValueInjective(q, Network(cfg));
    ValueInjective(q, Broadcast(cfg));
    ValueInjective(q, cfg.base);
    if cfg.prefix == 32 {
      SingleAddress(cfg);
    }
    hide Value, Mask, Broadcast, Network, Contains;
  }

  lemma CandidateSpecial(cfg: Config, i: Octet)
    ensures var q, n, b := CandidateQuad(cfg, i), Network(cfg), Broadcast(cfg);
      && (q == n <==> BaseBlock(cfg) && i == n.d)
      && (q == b <==> BroadcastBlock(cfg) && i == b.d)
      && (q == Gateway(cfg) <==> BaseBlock(cfg) && i == (n.d + 1) % 256)
  {
    hide Mask, Broadcast;
  }

  lemma OctetsUsable(n: int, b: int, inBase: bool, inBroadcast: bool, start: int)
    requires 0 <= n < b < 256 && n % 2 == 0 && b % 2 == 1 && start <= 254
    ensures (forall i :: start <= i <= 254 ==> OctetPasses(n, b, inBase, inBroadcast, false, i))
      <==> (start >= 0 && start >= n && b == 255 && (inBase ==> start >= n + 2))
  {
    if forall i :: start <= i <= 254 ==> OctetPasses(n, b, inBase, inBroadcast, false, i) {
      assert OctetPasses(n, b, inBase, inBroadcast, false, 254);
      assert OctetPasses(n, b, inBase, inBroadcast, false, start);
    }
  }

  lemma UsableCandidates(cfg: Config)
    requires ValidConfig(cfg)
    ensures AllocatesUsable(cfg) <==> forall i :: cfg.start <= i <= 254 ==> CandidatePasses(cfg, i)
  {
    hide CandidatePasses, Mask, Broadcast, BaseBlock, BroadcastBlock;
    forall i | cfg.start <= i <= 254 ensures CandidatePasses(cfg, i) <==> PassesByOctet(cfg, i) {
      CandidatePassesByOctet(cfg, i);
    }
    if cfg.prefix == 32 {
      SingleAddress(cfg);
      assert cfg.start <= 254 ==> (PassesByOctet(cfg, cfg.start) ==> cfg.start == cfg.base.d);
      assert cfg.start <= 254 ==> (PassesByOctet(cfg, 254) ==> 254 == cfg.base.d);
    } else if cfg.start <= 254 {
      LastOctets(cfg);
      OctetsUsable(Network(cfg).d, Broadcast(cfg).d, BaseBlock(cfg), BroadcastBlock(cfg), cfg.start);
      var n, b, x, y := Network(cfg).d, Broadcast(cfg).d, BaseBlock(cfg), BroadcastBlock(cfg);
      forall i | cfg.start <= i <= 254
        ensures CandidatePasses(cfg, i) <==> OctetPasses(n, b, x, y, false, i)
      {
        assert PassesByOctet(cfg, i) <==> OctetPasses(n, b, x, y, cfg.prefix == 32, i);
      }
      hide OctetPasses, PassesByOctet;
    }
  }

  lemma LastOctets(cfg: Config)
    requires cfg.prefix < 32
    ensures Network(cfg).d % 2 == 0 && Broadcast(cfg).d % 2 == 1 && Network(cfg).d < Broadcast(cfg).d
    ensures Network(cfg).d > 0 ==> BaseBlock(cfg)
  {
    var m := MaskBits(cfg.prefix, 3);
    MaskEven(cfg.base.d, m);
    MaskedBlock(cfg);
    LastByMask(cfg);
    OddEnd(MaskOctet(cfg.base.d, m), Block(m));
    hide Block, MaskOctet, Broadcast, Network, BaseBlock, MaskBits;
  }

  lemma OddEnd(n: nat, size: nat)
    requires n % 2 == 0 && size % 2 == 0 && size > 0
    ensures (n + (size - 1)) % 2 == 1 && size > 1
  {
  }

  lemma LastByMask(cfg: Config)
    ensures var m := MaskBits(cfg.prefix, 3);
      Network(cfg).d == MaskOctet(cfg.base.d, m) && Broadcast(cfg).d == MaskOctet(cfg.base.d, m) + (Block(m) - 1)
      && Block(m) > 0
  {
    MaskedOctet(cfg.base.d, MaskBits(cfg.prefix, 3));
    hide MaskOctet, Block;
  }

  lemma MaskedBlock(cfg: Config)
    ensures Network(cfg).d > 0 ==> BaseBlock(cfg)
  {
    MaskEnds(cfg.base.a);
    MaskEnds(cfg.base.b);
    MaskEnds(cfg.base.c);
    MaskEnds(cfg.base.d);
    hide Block, MaskOctet;
  }

  /** The allocator and the checker agree exactly under that condition: every address AllocateIP can
      return, whatever addresses are used, passes every test of ValidateIP. */
  lemma AllocatorMeetsChecker(given: Config)
    requires ValidConfig(given)
    ensures var cfg := Derived(given);
      (forall used :: Allocated(cfg, used).Some? ==> Accepts(cfg, used, Allocated(cfg, used).value))
      <==> AllocatesUsable(cfg)
  {
    var cfg := Derived(given);
    DerivedSame(given);
    hide Accepts, CandidatePasses, AllocatesUsable, Candidate, ValidConfig, Gateway, Format, Derived;
    if AllocatesUsable(cfg) {
      forall used | Allocated(cfg, used).Some? ensures Accepts(cfg, used, Allocated(cfg, used).value) {
        FirstFreeExact(cfg, used, cfg.start);
        var k :| cfg.start <= k <= 254 && Allocated(cfg, used).value == Candidate(cfg, k) && Candidate(cfg, k) !in used;
        UsableCandidates(cfg);
        CandidateAccepted(cfg, used, k);
      }
    }
    if forall used :: Allocated(cfg, used).Some? ==> Accepts(cfg, used, Allocated(cfg, used).value) {
      forall i | cfg.start <= i <= 254 ensures CandidatePasses(cfg, i) {
        var used := set j | cfg.start <= j < i :: Candidate(cfg, j);
        if Candidate(cfg, i) in used {
          var j :| cfg.start <= j < i && Candidate(cfg, j) == Candidate(cfg, i);
          CandidateInjective(cfg, i, j);
        }
        ReachesCandidate(cfg, used, cfg.start, i);
        assert Allocated(cfg, used) == Some(Candidate(cfg, i));
        CandidateAccepted(cfg, used, i);
      }
      UsableCandidates(cfg);
    }
  }

  /** With a prefix of at most 24 bits and a start above the gateway, the two agree; with a longer one
      they can agree only if the subnet ends at 255. */
  lemma UsualConfigurations(cfg: Config)
    requires ValidConfig(cfg)
    ensures cfg.prefix <= 24 && cfg.start >= 2 ==> AllocatesUsable(cfg)
    ensures 24 < cfg.prefix < 32 && cfg.start <= 254 && AllocatesUsable(cfg) ==> Broadcast(cfg).d == 255
  {
    MaskEnds(cfg.base.d);
    if cfg.prefix <= 24 {
      assert MaskBits(cfg.prefix, 3) == 0;
    }
  }

  lemma {:induction false} ReachesCandidate(cfg: Config, used: set<string>, s: int, i: int)
    requires s <= i <= 254 && Candidate(cfg, i) !in used
    requires forall j :: s <= j < i ==> Candidate(cfg, j) in used
    ensures FirstFree(cfg, used, s) == Some(Candidate(cfg, i))
    decreases i - s
  {
    if s < i {
      ReachesCandidate(cfg, used, s + 1, i);
    }
  }

  // ---------------------------------------------------------------- used addresses

  /** The addresses of a list of records; an empty address does not count. */
  ghost function AddressesOf(vms: seq<Record>): set<string> {
    set v | v in vms && v.ip != "" :: v.ip
  }

  /** usedIPs, over the records that LoadAllVMs returned. */
  method UsedIPs(vms: seq<Record>) returns (used: set<string>)
    ensures used == AddressesOf(vms)
  {
    used := {};
    for i := 0 to |vms|
      invariant used == AddressesOf(vms[..i])
    {
      assert vms[..i + 1] == vms[..i] + [vms[i]];
      if vms[i].ip != "" {
        used := used + {vms[i].ip};
      }
    }
    assert vms[..|vms|] == vms;
  }

  /** How create obtains an address under the lock: allocated, or given by hand and checked. */
  datatype Request = Automatic | Static(ip: string)

  ghost function ChosenIP(cfg: Config, used: set<string>, req: Request): Option<string>
    requires ValidConfig(cfg)
  {
    match req
    case Automatic => Allocated(cfg, used)
    case Static(ip) => if Accepts(cfg, used, ip) then Some(ip) else None
  }

  lemma ChosenIsFresh(cfg: Config, used: set<string>, req: Request)
    requires ValidConfig(cfg) && ChosenIP(cfg, used, req).Some?
    ensures ChosenIP(cfg, used, req).value !in used
    ensures ChosenIP(cfg, used, req).value != ""
  {
    if req == Automatic {
      FirstFreeExact(cfg, used, cfg.start);
    }
  }

  /** A canonical address that agrees with the subnet's base in its first two octets. */
  ghost predicate InSixteen(cfg: Config, ip: string) {
    exists q :: ip == Format(q) && q.a == cfg.base.a && q.b == cfg.base.b
  }

  lemma ChosenInSixteen(cfg: Config, used: set<string>, req: Request)
    requires ValidConfig(cfg) && ChosenIP(cfg, used, req).Some? && cfg.prefix >= 16 && cfg.start >= 0
    ensures InSixteen(cfg, ChosenIP(cfg, used, req).value)
  {
    var ip := ChosenIP(cfg, used, req).value;
    match req
    case Automatic =>
      FirstFreeExact(cfg, used, cfg.start);
      var k :| cfg.start <= k <= 254 && ip == Candidate(cfg, k);
      assert ip == Format(CandidateQuad(cfg, k));
    case Static(_) =>
      var q :| ip == Format(q) && Usable(cfg, q);
      UsableInSixteen(cfg, q);
  }

  lemma UsableInSixteen(cfg: Config, q: Quad)
    requires ValidConfig(cfg) && cfg.prefix >= 16 && Usable(cfg, q)
    ensures q.a == cfg.base.a && q.b == cfg.base.b
  {
    SubnetIsInterval(cfg, q);
    if cfg.prefix == 32 {
      SingleAddress(cfg);
      ValueInjective(q, cfg.base);
    }
    MaskEnds(q.a);
    MaskEnds(q.b);
    MaskEnds(cfg.base.a);
    MaskEnds(cfg.base.b);
    hide MaskOctet, Block, Value;
  }

  // ---------------------------------------------------------------- MAC addresses

  function HexDigit(d: nat): char
    requires d < 16
  {
    "0123456789ABCDEF"[d]
  }

  function HexText(n: nat): string {
    if n < 16 then [HexDigit(n)] else HexText(n / 16) + [HexDigit(n % 16)]
  }

  /** "%02X" */
  function Hex2(n: nat): string {
    if n < 16 then "0" + HexText(n) else HexText(n)
  }

  /** fmt.Sscanf with "%d", on text without sign or space: the value of the leading digits. */
  function ScanInt(s: string): nat {
    if s != "" && IsDigit(s[0]) then
      var n := LeadingDigits(s);
      DigitsValue(s[..n])
    else 0
  }

  function LeadingDigits(s: string): (n: nat)
    ensures n <= |s|
  {
    if s == "" || !IsDigit(s[0]) then 0 else 1 + LeadingDigits(s[1..])
  }

  function MACFromIP(ip: string): string {
    var parts := Split(ip, '.');
    if |parts| != 4 then "AA:FC:00:00:00:01"
    else "AA:FC:00:00:" + Hex2(ScanInt(parts[2])) + ":" + Hex2(ScanInt(parts[3]))
  }

  lemma {:induction false} AllLeadingDigits(s: string)
    requires forall i :: 0 <= i < |s| ==> IsDigit(s[i])
    ensures LeadingDigits(s) == |s|
  {
    if s != "" {
      AllLeadingDigits(s[1..]);
    }
  }

  lemma ScanDecimal(n: nat)
    ensures ScanInt(Decimal(n)) == n
  {
    var s := Decimal(n);
    AllLeadingDigits(s);
    assert s[..|s|] == s;
    DecimalValue(n);
  }

  lemma Hex2Injective(m: Octet, n: Octet)
    ensures |Hex2(m)| == 2
    ensures Hex2(m) == Hex2(n) ==> m == n
  {
    Hex2Chars(m);
    Hex2Chars(n);
    if Hex2(m) == Hex2(n) {
      assert Hex2(m)[0] == Hex2(n)[0] && Hex2(m)[1] == Hex2(n)[1];
      HexDigitInjective(m / 16, n / 16);
      HexDigitInjective(m % 16, n % 16);
    }
  }

  lemma Hex2Chars(n: Octet)
    ensures Hex2(n) == [HexDigit(n / 16), HexDigit(n % 16)]
  {
    assert n / 16 < 16;
    assert HexText(n / 16) == [HexDigit(n / 16)] && HexText(n % 16) == [HexDigit(n % 16)];
    if n < 16 {
      assert n / 16 == 0 && n % 16 == n;
    }
  }

  lemma HexDigitInjective(m: nat, n: nat)
    requires m < 16 && n < 16 && HexDigit(m) == HexDigit(n)
    ensures m == n
  {
    HexDigitCode(m);
    HexDigitCode(n);
  }

  lemma HexDigitCode(d: nat)
    requires d < 16
    ensures HexDigit(d) as int == if d < 10 then d + 48 else d + 55
  {
  }

  lemma MACOfQuad(q: Quad)
    ensures MACFromIP(Format(q)) == "AA:FC:00:00:" + Hex2(q.c) + ":" + Hex2(q.d)
  {
    SplitQuad(q);
    ScanDecimal(q.c);
    ScanDecimal(q.d);
  }

  /** Two canonical addresses have the same MAC exactly when their last two octets agree. */
  lemma MACDistinguishes(p: Quad, q: Quad)
    ensures MACFromIP(Format(p)) == MACFromIP(Format(q)) <==> p.c == q.c && p.d == q.d
  {
    MACOfQuad(p);
    MACOfQuad(q);
    Hex2Injective(p.c, q.c);
    Hex2Injective(p.d, q.d);
    Hex2Injective(q.c, p.c);
    Hex2Injective(q.d, p.d);
    var pre := "AA:FC:00:00:";
    if MACFromIP(Format(p)) == MACFromIP(Format(q)) {
      FourParts(pre, Hex2(p.c), Hex2(p.d), Hex2(q.c), Hex2(q.d));
    }
  }

  lemma FourParts(pre: string, a: string, b: string, c: string, d: string)
    requires |a| == |b| == |c| == |d| == 2
    requires pre + a + ":" + b == pre + c + ":" + d
    ensures a == c && b == d
  {
    var x, y, n := pre + a + ":" + b, pre + c + ":" + d, |pre|;
    assert a == x[n..n + 2] && c == y[n..n + 2];
    assert b == x[n + 3..] && d == y[n + 3..];
  }

  /** So within a subnet of at least sixteen prefix bits, different addresses get different MACs. */
  lemma MACInjectiveInSixteen(cfg: Config, x: string, y: string)
    requires InSixteen(cfg, x) && InSixteen(cfg, y) && MACFromIP(x) == MACFromIP(y)
    ensures x == y
  {
    var p :| x == Format(p) && p.a == cfg.base.a && p.b == cfg.base.b;
    var q :| y == Format(q) && q.a == cfg.base.a && q.b == cfg.base.b;
    MACDistinguishes(p, q);
  }

  // ---------------------------------------------------------------- looking a VM up by its MAC

  function Lookup(vms: seq<Record>, mac: string): Option<Record> {
    if vms == [] then None
    else if vms[0].mac == mac then Some(vms[0])
    else Lookup(vms[1..], mac)
  }

  /** findVMByMAC, over the records in the order the directory scan returned them. */
  method FindVMByMAC(vms: seq<Record>, mac: string) returns (r: Option<Record>)
    ensures r == Lookup(vms, mac)
    ensures r == None <==> forall v :: v in vms ==> v.mac != mac
    ensures r.Some? ==> exists i :: (
      0 <= i < |vms| && vms[i] == r.value && vms[i].mac == mac && forall j :: 0 <= j < i ==> vms[j].mac != mac)
  {
    for i := 0 to |vms|
      invariant Lookup(vms, mac) == Lookup(vms[i..], mac)
      invariant forall j :: 0 <= j < i ==> vms[j].mac != mac
    {
      assert vms[i..][1..] == vms[i + 1..];
      if vms[i].mac == mac {
        return Some(vms[i]);
      }
    }
    return None;
  }

  lemma {:induction false} LookupFinds(vms: seq<Record>, mac: string)
    ensures Lookup(vms, mac) == None ==> forall v :: v in vms ==> v.mac != mac
    ensures Lookup(vms, mac).Some? ==> Lookup(vms, mac).value in vms && Lookup(vms, mac).value.mac == mac
  {
    if vms != [] {
      LookupFinds(vms[1..], mac);
    }
  }

  /** One order in which a directory scan may return the records, each once. */
  ghost predicate ScanOf(order: seq<Record>, vms: set<Record>) {
    |order| == |vms| && forall v :: v in order <==> v in vms
  }

  /** The answer does not depend on the order of the scan exactly when no two different records of
      the directory share the MAC that is asked for. */
  lemma LookupIgnoresOrder(vms: set<Record>, mac: string)
    ensures (forall x, y :: ScanOf(x, vms) && ScanOf(y, vms) ==> Lookup(x, mac) == Lookup(y, mac))
      <==> (forall v, w :: v in vms && w in vms && v.mac == mac && w.mac == mac ==> v == w)
  {
    forall x, y | ScanOf(x, vms) && ScanOf(y, vms) && Lookup(x, mac) != Lookup(y, mac)
      ensures exists v, w :: v in vms && w in vms && v.mac == mac && w.mac == mac && v != w
    {
      LookupFinds(x, mac);
      LookupFinds(y, mac);
    }
    if v, w :| v in vms && w in vms && v.mac == mac && w.mac == mac && v != w {
      var x := ScanFrom(vms, v);
      var y := ScanFrom(vms, w);
    }
  }

  /** Any record may come first. */
  lemma ScanFrom(vms: set<Record>, v: Record) returns (order: seq<Record>)
    requires v in vms
    ensures ScanOf(order, vms) && Lookup(order, v.mac) == Some(v)
  {
    var rest := Enumerate(vms - {v});
    order := [v] + rest;
  }

  lemma {:induction false} Enumerate(vms: set<Record>) returns (s: seq<Record>)
    ensures ScanOf(s, vms)
  {
    s := [];
    if v :| v in vms {
      s := Enumerate(vms - {v});
      s := s + [v];
    }
  }
}
