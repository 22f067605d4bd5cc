/**
 The target policy's network checks: only the two endpoints of a range are looked at, once its
 size is limited.  Addresses are numbers, and a network is an aligned block of them.
 */
module TargetPolicy {
  import opened Basics

  datatype Version = V4 | V6

  function Width(v: Version): nat {
    if v == V4 then 32 else 128
  }

  /** `bits` host bits, so the block spans `Pow2(bits)` addresses from `base` on. */
  datatype Network = Network(version: Version, base: nat, bits: nat) {
    function Size(): (r: nat)
      ensures r >= 1
    {
      Pow2(bits)
    }

    function Broadcast(): nat {
      base + Size() - 1
    }

    ghost predicate Aligned() {
      exists k: nat :: base == k * Size()
    }
  }

  datatype Address = Address(version: Version, value: nat)

  predicate Contains(n: Network, a: Address) {
    a.version == n.version && n.base <= a.value <= n.Broadcast()
  }

  /** The largest multiple of `size` up to `x`. */
  function AlignDown(x: nat, size: nat): (r: nat)
    requires size >= 1
    ensures r <= x < r + size
  {
    BlockStartNotNegative(x / size, size);
    x / size * size
  }

  lemma BlockStartNotNegative(k: nat, size: nat)
    ensures 0 <= k * size
  {
  }

  /** `ip_network(value, strict=False)`: the host bits of the given address are cleared. */
  function NetworkOf(v: Version, address: nat, prefix: nat): (n: Network)
    requires prefix <= Width(v)
    ensures n.Aligned() && Contains(n, Address(v, address))
  {
    var size := Pow2(Width(v) - prefix);
    var n := Network(v, AlignDown(address, size), Width(v) - prefix);
    assert n.base == (address / size) * n.Size();
    n
  }

  datatype Target = Cidr(net: Network) | Ip(address: Address) | Name(host: string)

  /** `hostOf` is a target's canonical text in lower case, `parse` reads a network with its host bits
      cleared, and `nonPublic` lists the ranges the address tests cover.  Patterns come without
      surrounding blanks, leading asterisks and leading dots, in lower case. */
  datatype Policy = Policy(
    isMetadata: Target -> bool,
    hasDeniedSuffix: Target -> bool,
    hostOf: Target -> string,
    parse: string -> Option<Network>,
    maxCidrHosts: int,
    blockPrivate: bool,
    nonPublic: seq<Network>,
    denyList: seq<string>,
    allowList: seq<string>)

  datatype Denial = MetadataEndpoint | DeniedSuffix | TooManyHosts | NonPublicAddress | DenyListed | OutOfScope

  function AddressesOf(t: Target): seq<Address> {
    match t
    case Cidr(n) => [Address(n.version, n.base), Address(n.version, n.Broadcast())]
    case Ip(a) => [a]
    case Name(_) => []
  }

  predicate InAny(ranges: seq<Network>, a: Address) {
    exists r <- ranges :: Contains(r, a)
  }

  predicate EndsWith(s: string, tail: string) {
    |tail| <= |s| && s[|s| - |tail|..] == tail
  }

  /** A pattern names the target itself or a dotted ending of it, or covers one of its addresses. */
  predicate Matches(p: Policy, t: Target, pattern: string) {
    pattern != "" &&
    (p.hostOf(t) == pattern || EndsWith(p.hostOf(t), "." + pattern)
     || (p.parse(pattern).Some? && exists a <- AddressesOf(t) :: Contains(p.parse(pattern).value, a)))
  }

  predicate MatchesAny(p: Policy, t: Target, patterns: seq<string>) {
    exists pattern <- patterns :: Matches(p, t, pattern)
  }

  function EnforcePolicy(t: Target, p: Policy): Result<Target, Denial> {
    if p.isMetadata(t) then Err(MetadataEndpoint)
    else if p.hasDeniedSuffix(t) then Err(DeniedSuffix)
    else if t.Cidr? && t.net.Size() > p.maxCidrHosts then Err(TooManyHosts)
    else if p.blockPrivate && exists a <- AddressesOf(t) :: InAny(p.nonPublic, a) then Err(NonPublicAddress)
    else if MatchesAny(p, t, p.denyList) then Err(DenyListed)
    else if p.allowList != [] && !MatchesAny(p, t, p.allowList) then Err(OutOfScope)
    else Ok(t)
  }

  // ----- what is accepted, and why not ----------------------------------------------------------

  /** A pattern names a target by its text: the text itself, or a dotted ending of it. */
  predicate Names(pattern: string, host: string) {
    pattern != "" && (host == pattern || EndsWith(host, "." + pattern))
  }

  lemma NamesIff(pattern: string, host: string)
    ensures Names(pattern, host) <==>
            pattern != "" && (host == pattern || exists front :: host == front + "." + pattern)
  {
    if EndsWith(host, "." + pattern) {
      var front := host[..|host| - |pattern| - 1];
      assert host == front + ("." + pattern) == front + "." + pattern;
    }
    forall front | host == front + "." + pattern
      ensures EndsWith(host, "." + pattern)
    {
      assert host == front + ("." + pattern);
    }
  }

  /** A pattern denotes a range that holds the address. */
  predicate Covers(p: Policy, pattern: string, a: Address) {
    pattern != "" && p.parse(pattern).Some? && Contains(p.parse(pattern).value, a)
  }

  /** A single address is accepted exactly when it is no metadata address, has no denied suffix, lies in
      no covered range while those are blocked, is neither named nor covered by the deny-list, and is
      named or covered by the allow-list if there is one. */
  lemma AddressAcceptedIff(a: Address, p: Policy)
    ensures EnforcePolicy(Ip(a), p) == Ok(Ip(a)) <==>
      && !p.isMetadata(Ip(a)) && !p.hasDeniedSuffix(Ip(a))
      && (p.blockPrivate ==> forall r <- p.nonPublic :: !Contains(r, a))
      && (forall d <- p.denyList :: !Names(d, p.hostOf(Ip(a))) && !Covers(p, d, a))
      && (p.allowList != [] ==> exists q <- p.allowList :: Names(q, p.hostOf(Ip(a))) || Covers(p, q, a))
  {
    hide Contains, Matches, Names, Covers, InAny, AddressesOf;
    forall q: string
      ensures Matches(p, Ip(a), q) <==> Names(q, p.hostOf(Ip(a))) || Covers(p, q, a)
    {
      AddressMatches(p, a, q);
    }
    AddressOutside(p.nonPublic, a);
    assert p.denyList != [] ==> p.denyList[0] in p.denyList;
  }

  lemma AddressMatches(p: Policy, a: Address, q: string)
    ensures Matches(p, Ip(a), q) <==> Names(q, p.hostOf(Ip(a))) || Covers(p, q, a)
  {
    hide Contains, EndsWith;
    assert AddressesOf(Ip(a))[0] == a;
  }

  lemma AddressOutside(ranges: seq<Network>, a: Address)
    ensures (exists b <- AddressesOf(Ip(a)) :: InAny(ranges, b)) <==> exists r <- ranges :: Contains(r, a)
  {
    hide Contains;
    assert AddressesOf(Ip(a))[0] == a;
    if exists r <- ranges :: Contains(r, a) {
      assert InAny(ranges, a) && a in AddressesOf(Ip(a));
    }
  }

  /** A host name, whose addresses are not known yet, is judged by its text alone. */
  lemma NameAcceptedIff(host: string, p: Policy)
    ensures EnforcePolicy(Name(host), p) == Ok(Name(host)) <==>
      && !p.isMetadata(Name(host)) && !p.hasDeniedSuffix(Name(host))
      && (forall d <- p.denyList :: !Names(d, p.hostOf(Name(host))))
      && (p.allowList != [] ==> exists q <- p.allowList :: Names(q, p.hostOf(Name(host))))
  {
    hide EndsWith;
    forall q: string
      ensures Matches(p, Name(host), q) <==> Names(q, p.hostOf(Name(host)))
    {
    }
  }

  /** Why a target is refused: each reason is given exactly when no reason before it applies. */
  lemma RefusedBecause(t: Target, p: Policy)
    ensures var r := EnforcePolicy(t, p);
      && (r == Err(MetadataEndpoint) <==> p.isMetadata(t))
      && (r == Err(DeniedSuffix) <==> !p.isMetadata(t) && p.hasDeniedSuffix(t))
      && (r == Err(TooManyHosts) <==>
           !p.isMetadata(t) && !p.hasDeniedSuffix(t) && t.Cidr? && t.net.Size() > p.maxCidrHosts)
      && (r == Err(DenyListed) ==> exists d <- p.denyList :: Matches(p, t, d))
      && (r == Err(OutOfScope) ==> p.allowList != [] && forall q <- p.allowList :: !Matches(p, t, q))
      && ((exists d <- p.denyList :: Names(d, p.hostOf(t))) ==> r.Err?)
      && (r.Ok? ==> r.value == t)
  {
    hide Matches, InAny;
    if exists d <- p.denyList :: Names(d, p.hostOf(t)) {
      var d :| d in p.denyList && Names(d, p.hostOf(t));
      NamedMatches(p, t, d);
    }
  }

  lemma NamedMatches(p: Policy, t: Target, d: string)
    requires Names(d, p.hostOf(t))
    ensures Matches(p, t, d)
  {
  }

  // ----- aligned blocks ------------------------------------------------------------------

  lemma {:induction false} Pow2Splits(m: nat, n: nat)
    requires m <= n
    ensures Pow2(n) == Pow2(n - m) * Pow2(m)
    decreases n
  {
    if m < n {
      Pow2Splits(m, n - 1);
    }
  }

  lemma TimesMonotone(a: int, b: int, s: nat)
    requires a <= b
    ensures a * s <= b * s
  {
  }

  lemma TimesAssociates(a: int, b: int, s: int)
    ensures a * (b * s) == (a * b) * s
  {
  }

  /** Block `k` of the small size lies inside one block of a size `c` times as large. */
  lemma BlocksNest(s: nat, c: nat, k: nat, m: nat, x: nat)
    requires s >= 1 && c >= 1
    requires k * s <= x < (k + 1) * s && m * (c * s) <= x < (m + 1) * (c * s)
    ensures m * (c * s) <= k * s && (k + 1) * s <= (m + 1) * (c * s)
  {
    var first, last := m * c, (m + 1) * c;
    TimesAssociates(m, c, s);
    TimesAssociates(m + 1, c, s);
    if k < first {
      TimesMonotone(k + 1, first, s);
    }
    if k >= last {
      TimesMonotone(last, k, s);
    }
    TimesMonotone(first, k, s);
    TimesMonotone(k + 1, last, s);
  }

  ghost predicate Within(b: Network, r: Network) {
    b.version == r.version && r.base <= b.base && b.Broadcast() <= r.Broadcast()
  }

  ghost predicate Touches(b: Network, r: Network) {
    exists a :: Contains(b, a) && Contains(r, a)
  }

  /** Aligned blocks are nested or disjoint. */
  lemma NestedOrDisjoint(b: Network, r: Network)
    requires b.Aligned() && r.Aligned() && b.bits <= r.bits
    ensures Touches(b, r) <==> Within(b, r)
  {
    if Touches(b, r) {
      var a :| Contains(b, a) && Contains(r, a);
      var k: nat :| b.base == k * b.Size();
      var m: nat :| r.base == m * r.Size();
      Pow2Splits(b.bits, r.bits);
      assert (k + 1) * b.Size() == k * b.Size() + b.Size();
      assert (m + 1) * r.Size() == m * r.Size() + r.Size();
      BlocksNest(b.Size(), Pow2(r.bits - b.bits), k, m, a.value);
    }
    if Within(b, r) {
      assert Contains(b, Address(b.version, b.base)) && Contains(r, Address(b.version, b.base));
    }
  }

  // ----- testing the endpoints ------------------------------------------------------------

  predicate EndpointIn(b: Network, r: Network) {
    Contains(r, Address(b.version, b.base)) || Contains(r, Address(b.version, b.Broadcast()))
  }

  /** Against a range at least as large, the endpoints speak for every single address. */
  lemma EndpointsDecide(b: Network, r: Network, a: Address)
    requires b.Aligned() && r.Aligned() && b.bits <= r.bits && Contains(b, a)
    ensures EndpointIn(b, r) <==> Contains(r, a)
  {
    NestedOrDisjoint(b, r);
    assert Contains(b, Address(b.version, b.base)) && Contains(b, Address(b.version, b.Broadcast()));
    if EndpointIn(b, r) || Contains(r, a) {
      assert Touches(b, r);
    }
  }

  /** The enclosing block of `bits` host bits. */
  function Enclosing(r: Network, bits: nat): Network {
    Network(r.version, AlignDown(r.base, Pow2(bits)), bits)
  }

  /** Either the range is as large as the largest block let through, or it sits at an edge of
      the block of that size around it. */
  predicate LargeOrAtEdge(r: Network, bits: nat) {
    || r.bits >= bits
    || r.base == Enclosing(r, bits).base
    || r.Broadcast() == Enclosing(r, bits).Broadcast()
  }

  ghost predicate EndpointsSuffice(r: Network, bits: nat) {
    forall b: Network :: b.Aligned() && b.bits <= bits ==> (EndpointIn(b, r) <==> Touches(b, r))
  }

  lemma EnclosingContains(r: Network, bits: nat)
    requires r.Aligned() && r.bits <= bits
    ensures Enclosing(r, bits).Aligned() && Within(r, Enclosing(r, bits))
  {
    var e := Enclosing(r, bits);
    assert e.base == (r.base / Pow2(bits)) * e.Size();
    var a := Address(r.version, r.base);
    assert Contains(r, a) && Contains(e, a);
    NestedOrDisjoint(r, e);
  }

  lemma EdgeSuffices(r: Network, bits: nat, b: Network)
    requires r.Aligned() && b.Aligned() && r.bits < b.bits <= bits && LargeOrAtEdge(r, bits)
    requires Touches(b, r)
    ensures EndpointIn(b, r)
  {
    var e := Enclosing(r, bits);
    EnclosingContains(r, bits);
    var a :| Contains(b, a) && Contains(r, a);
    assert Touches(r, b);
    NestedOrDisjoint(r, b);
    assert Touches(b, e) by {
      assert Contains(e, a);
    }
    NestedOrDisjoint(b, e);
  }

  /** Testing the endpoints of every block up to a size is exact for a range if and only if the
      range is at least that large or lies at an edge of the block around it. */
  lemma EndpointsSufficeIff(r: Network, bits: nat)
    requires r.Aligned()
    ensures EndpointsSuffice(r, bits) <==> LargeOrAtEdge(r, bits)
  {
    if LargeOrAtEdge(r, bits) {
      forall b: Network | b.Aligned() && b.bits <= bits
        ensures EndpointIn(b, r) <==> Touches(b, r)
      {
        EndpointTouches(b, r);
        if Touches(b, r) {
          if b.bits <= r.bits {
            NestedOrDisjoint(b, r);
          } else {
            EdgeSuffices(r, bits, b);
          }
        }
      }
    } else {
      var e := Enclosing(r, bits);
      EnclosingContains(r, bits);
      assert Contains(r, Address(r.version, r.base)) && Contains(e, Address(r.version, r.base));
      assert Touches(e, r) && !EndpointIn(e, r);
    }
  }

  lemma EndpointTouches(b: Network, r: Network)
    ensures EndpointIn(b, r) ==> Touches(b, r)
  {
    assert Contains(b, Address(b.version, b.base)) && Contains(b, Address(b.version, b.Broadcast()));
  }

  /** The largest block the size limit lets through has `bits` host bits. */
  ghost predicate LimitedTo(p: Policy, bits: nat) {
    Pow2(bits) <= p.maxCidrHosts < Pow2(bits + 1)
  }

  lemma {:induction false} Pow2Monotone(m: nat, n: nat)
    requires m <= n
    ensures Pow2(m) <= Pow2(n)
    decreases n
  {
    if m < n {
      Pow2Monotone(m, n - 1);
    }
  }

  /** An accepted network holds no address of any covered range that is large or at an edge. */
  lemma AcceptedNetworkIsPublic(n: Network, p: Policy, bits: nat, r: Network, a: Address)
    requires EnforcePolicy(Cidr(n), p) == Ok(Cidr(n)) && p.blockPrivate && n.Aligned()
    requires LimitedTo(p, bits) && r in p.nonPublic && r.Aligned() && LargeOrAtEdge(r, bits)
    requires Contains(n, a)
    ensures !Contains(r, a)
  {
    if n.bits > bits {
      Pow2Monotone(bits + 1, n.bits);
    }
    EndpointsSufficeIff(r, bits);
    var ends := AddressesOf(Cidr(n));
    assert ends[0] in ends && ends[1] in ends;
    assert Contains(r, a) ==> Touches(n, r);
    assert !EndpointIn(n, r);
  }

  /** Block `k` among the blocks of `bits` host bits. */
  function Block(version: Version, k: nat, bits: nat): (n: Network)
    ensures n.Aligned()
  {
    var n := Network(version, k * Pow2(bits), bits);
    assert n.base == k * n.Size();
    n
  }

  /** This network, RFC 1918, loopback, link-local, shared address space (RFC 6598), benchmarking,
      multicast, reserved. */
  const WIDE_V4: seq<Network> := [
    Block(V4, 0, 24),
    Block(V4, 10, 24),
    Block(V4, 172 * 0x10 + 1, 20),
    Block(V4, 192 * 0x100 + 168, 16),
    Block(V4, 127, 24),
    Block(V4, 169 * 0x100 + 254, 16),
    Block(V4, 100 * 4 + 1, 22),
    Block(V4, 198 * 0x80 + 9, 17),
    Block(V4, 14, 28),
    Block(V4, 15, 28)]

  /** Documentation, unique-local, link-local and multicast, then the reserved blocks from ::/8, which
      holds the loopback and the unspecified address, to fe00::/9. */
  const WIDE_V6: seq<Network> := [
    Block(V6, 0x20010db8, 96),
    Block(V6, 0xfc / 2, 121),
    Block(V6, 0xfe80 / 0x40, 118),
    Block(V6, 0xff, 120),
    Block(V6, 0x00, 120),
    Block(V6, 0x01, 120),
    Block(V6, 0x02 / 2, 121),
    Block(V6, 0x04 / 4, 122),
    Block(V6, 0x08 / 8, 123),
    Block(V6, 0x10 / 0x10, 124),
    Block(V6, 0x40 / 0x20, 125),
    Block(V6, 0x60 / 0x20, 125),
    Block(V6, 0x80 / 0x20, 125),
    Block(V6, 0xa0 / 0x20, 125),
    Block(V6, 0xc0 / 0x20, 125),
    Block(V6, 0xe0 / 0x10, 124),
    Block(V6, 0xf0 / 8, 123),
    Block(V6, 0xf8 / 4, 122),
    Block(V6, 0xfe00 / 0x80, 119)]

  const WIDE_RANGES := WIDE_V4 + WIDE_V6

  lemma {:induction false} Pow2Values()
    ensures Pow2(8) == 0x100 && Pow2(12) == 0x1000 && Pow2(13) == 0x2000 && Pow2(16) == 0x10000
    ensures Pow2(20) == 0x100000 && Pow2(22) == 0x400000 && Pow2(24) == 0x1000000
    ensures Pow2(26) == 0x4000000 && Pow2(28) == 0x10000000
  {
    assert Pow2(8) == 0x100;
    Pow2Splits(8, 12);
    Pow2Splits(8, 13);
    Pow2Splits(8, 16);
    Pow2Splits(16, 20);
    Pow2Splits(16, 22);
    Pow2Splits(16, 24);
    Pow2Splits(24, 26);
    Pow2Splits(24, 28);
  }

  lemma WideRangesAligned()
    ensures forall r <- WIDE_RANGES :: r.Aligned() && r.bits >= 12
    ensures forall r <- WIDE_V6 :: r.version == V6
  {
    hide Pow2;
  }

  /** With the default limit of 4096 addresses, no address of an accepted network, IPv4 or
      IPv6, is private, loopback, link-local, shared, unique-local, multicast or reserved. */
  lemma DefaultLimitKeepsOutWideRanges(n: Network, p: Policy, a: Address)
    requires EnforcePolicy(Cidr(n), p) == Ok(Cidr(n)) && p.blockPrivate && n.Aligned()
    requires p.maxCidrHosts == 4096 && (forall r <- WIDE_RANGES :: r in p.nonPublic)
    requires Contains(n, a)
    ensures !InAny(WIDE_RANGES, a)
  {
    Pow2Values();
    WideRangesAligned();
    forall r | r in WIDE_RANGES
      ensures !Contains(r, a)
    {
      AcceptedNetworkIsPublic(n, p, 12, r, a);
    }
  }

  /** A network that matches an allow-listed range through an endpoint lies inside that range
      exactly when it is no larger. */
  lemma AllowMatchMeansInside(n: Network, allowed: Network)
    requires n.Aligned() && allowed.Aligned() && EndpointIn(n, allowed)
    ensures Within(n, allowed) <==> n.bits <= allowed.bits
  {
    EndpointTouches(n, allowed);
    if n.bits <= allowed.bits {
      NestedOrDisjoint(n, allowed);
    } else {
      Pow2Monotone(allowed.bits + 1, n.bits);
    }
  }

  lemma SharedAddressTouches(n: Network, r: Network, a: Address)
    requires Contains(n, a)
    ensures Contains(r, a) ==> Touches(n, r)
  {
  }

  /** An accepted network holds no address of a deny-listed range that is large or at an edge. */
  lemma AcceptedNetworkAvoidsDenied(n: Network, p: Policy, bits: nat, d: string, a: Address)
    requires EnforcePolicy(Cidr(n), p) == Ok(Cidr(n)) && n.Aligned() && LimitedTo(p, bits)
    requires d in p.denyList && d != "" && p.parse(d).Some? && p.parse(d).value.Aligned()
    requires LargeOrAtEdge(p.parse(d).value, bits) && Contains(n, a)
    ensures !Contains(p.parse(d).value, a)
  {
    if n.bits > bits {
      Pow2Monotone(bits + 1, n.bits);
    }
    var r := p.parse(d).value;
    EndpointsSufficeIff(r, bits);
    SharedAddressTouches(n, r, a);
    var ends := AddressesOf(Cidr(n));
    assert ends[0] in ends && ends[1] in ends;
    assert !Matches(p, Cidr(n), d);
    assert !EndpointIn(n, r);
  }

  /** Against an allow-list whose ranges are all at least as large, an accepted network lies wholly
      inside one of them, unless an entry is a dotted ending of the network's own text. */
  lemma AcceptedNetworkInsideAllowed(n: Network, p: Policy)
    requires EnforcePolicy(Cidr(n), p) == Ok(Cidr(n)) && n.Aligned() && p.allowList != []
    requires p.parse(p.hostOf(Cidr(n))) == Some(n)
    requires forall q <- p.allowList :: p.parse(q).Some? ==> p.parse(q).value.Aligned() && n.bits <= p.parse(q).value.bits
    ensures exists q <- p.allowList ::
      EndsWith(p.hostOf(Cidr(n)), "." + q) || (p.parse(q).Some? && Within(n, p.parse(q).value))
  {
    var q :| q in p.allowList && Matches(p, Cidr(n), q);
    if !EndsWith(p.hostOf(Cidr(n)), "." + q) && p.hostOf(Cidr(n)) != q {
      assert EndpointIn(n, p.parse(q).value);
      AllowMatchMeansInside(n, p.parse(q).value);
    }
  }

  // ----- networks the shortcut lets through ------------------------------------------------

  function V4Network(a: nat, b: nat, c: nat, d: nat, prefix: nat): Network
    requires prefix <= 32
  {
    Network(V4, ((a * 0x100 + b) * 0x100 + c) * 0x100 + d, 32 - prefix)
  }

  /** A policy that blocks private ranges and has no metadata or suffix rule, asked about the network
      written `host`; `named` says what the patterns denote. */
  function BlockingPolicy(maxCidrHosts: int, nonPublic: seq<Network>, allowList: seq<string>, host: string,
                          named: map<string, Network>): Policy
  {
    Policy(_ => false, _ => false, _ => host, s => if s in named then Some(named[s]) else None,
           maxCidrHosts, true, nonPublic, [], allowList)
  }

  /** The IPv4 addresses of the wide ranges, as numbers. */
  predicate InWideV4(x: nat) {
    || x < 0x100_0000 || 0xA00_0000 <= x < 0xB00_0000 || 0x6440_0000 <= x < 0x6480_0000
    || 0x7F00_0000 <= x < 0x8000_0000 || 0xA9FE_0000 <= x < 0xA9FF_0000 || 0xAC10_0000 <= x < 0xAC20_0000
    || 0xC0A8_0000 <= x < 0xC0A9_0000 || 0xC612_0000 <= x < 0xC614_0000 || 0xE000_0000 <= x < 0x1_0000_0000
  }

  lemma WideV4(x: nat)
    ensures InAny(WIDE_RANGES, Address(V4, x)) <==> InWideV4(x)
  {
    hide Pow2, WIDE_V4, WIDE_V6;
    WideRangesAligned();
    if InAny(WIDE_RANGES, Address(V4, x)) {
      var r :| r in WIDE_RANGES && Contains(r, Address(V4, x));
      WideV4One(r, x);
    }
    if InWideV4(x) {
      var i := WideV4Listed(x);
      assert WIDE_V4[i] in WIDE_RANGES;
    }
  }

  lemma WideV4Listed(x: nat) returns (i: nat)
    requires InWideV4(x)
    ensures i < |WIDE_V4| && Contains(WIDE_V4[i], Address(V4, x))
  {
    Pow2Values();
    Pow2Splits(16, 17);
    hide Pow2;
    i := if x < 0x100_0000 then 0
         else if x < 0xB00_0000 then 1
         else if x < 0x6480_0000 then 6
         else if x < 0x8000_0000 then 4
         else if x < 0xA9FF_0000 then 5
         else if x < 0xAC20_0000 then 2
         else if x < 0xC0A9_0000 then 3
         else if x < 0xC614_0000 then 7
         else if x < 0xF000_0000 then 8
         else 9;
  }

  /** What is left of an address without its last `bits` bits. */
  function Leading(x: nat, bits: nat): nat {
    Quotient(x, Pow2(bits))
  }

  function Quotient(x: nat, d: nat): nat
    requires d >= 1
  {
    x / d
  }

  /** The IPv6 addresses of the wide ranges: all but those of 2000::/3 and fec0::/10, and 2001:db8::/32. */
  predicate InWideV6(x: nat) {
    WideGroup(Leading(x, 112)) || Leading(x, 96) == 0x20010db8
  }

  predicate WideGroup(group: nat) {
    group < 0x2000 || 0x4000 <= group < 0xfec0 || 0xff00 <= group
  }

  lemma QuotientOfProduct(x: nat, b: nat, c: nat)
    requires b >= 1 && c >= 1
    ensures b * c >= 1 && Quotient(x, b * c) == Quotient(Quotient(x, b), c)
  {
    hide Quotient;
    var q := Quotient(x, b);
    var q' := Quotient(q, c);
    var r := Remainder(x, b);
    var r' := Remainder(q, c);
    TimesAtLeast(b, c);
    SumBelow(b, c, r', r);
    Regrouped(b, c, q', r');
    QuotientUnique(x, b * c, q', b * r' + r);
  }

  lemma Remainder(x: nat, d: nat) returns (r: nat)
    requires d >= 1
    ensures x == d * Quotient(x, d) + r && r < d
  {
    r := x % d;
  }

  lemma SumBelow(b: nat, c: nat, r': nat, r: nat)
    requires r' < c && r < b
    ensures 0 <= b * r' + r < b * c
  {
    TimesMonotone(r' + 1, c, b);
    Distributes(b, r', 1);
  }

  lemma Regrouped(b: nat, c: nat, q: nat, r: nat)
    ensures b * (c * q + r) == (b * c) * q + b * r
  {
    Distributes(b, c * q, r);
    TimesAssociates(b, c, q);
  }

  lemma Distributes(a: int, b: int, c: int)
    ensures a * (b + c) == a * b + a * c
  {
  }

  lemma QuotientUnique(x: nat, d: nat, q: nat, r: nat)
    requires x == d * q + r && r < d
    ensures Quotient(x, d) == q
  {
    var k := x / d - q;
    assert d * k == r - x % d;
    TimesAtLeast(d, k);
  }

  lemma TimesAtLeast(d: nat, k: int)
    requires d >= 1
    ensures k >= 1 ==> d * k >= d
    ensures k <= -1 ==> d * k + d <= 0
  {
  }

  lemma QuotientBelow(x: nat, d: nat, m: nat)
    requires d >= 1 && x < m * d
    ensures Quotient(x, d) < m
  {
    if x / d >= m {
      TimesMonotone(m, x / d, d);
    }
  }

  /** Block `k` of a size holds exactly the addresses that lead with `k`. */
  lemma BlockHolds(v: Version, k: nat, bits: nat, x: nat)
    ensures Contains(Block(v, k, bits), Address(v, x)) <==> Leading(x, bits) == k
  {
    var size := Pow2(bits);
    var n := Block(v, k, bits);
    assert n.base == k * size;
    if Contains(n, Address(v, x)) {
      QuotientUnique(x, size, k, x - k * size);
    }
    if x / size == k {
      assert x == size * k + x % size;
    }
  }

  lemma LeadingSplits(x: nat, m: nat, n: nat)
    ensures Leading(x, m + n) == Leading(Leading(x, m), n)
  {
    Pow2Splits(n, m + n);
    QuotientOfProduct(x, Pow2(m), Pow2(n));
  }

  lemma LeadingSmall(x: nat, m: nat, n: nat)
    requires x < Pow2(m + n)
    ensures Leading(x, m) < Pow2(n)
  {
    Pow2Splits(m, m + n);
    QuotientBelow(x, Pow2(m), Pow2(n));
  }

  /** The same by the first sixteen bits of the address. */
  lemma BlockHoldsGroup(k: nat, more: nat, x: nat)
    ensures Contains(Block(V6, k, 112 + more), Address(V6, x)) <==> Leading(Leading(x, 112), more) == k
  {
    hide Pow2, Contains, Block, Leading;
    BlockHolds(V6, k, 112 + more, x);
    LeadingSplits(x, 112, more);
  }

  lemma SmallPowers()
    ensures Pow2(7) == 0x80 && Pow2(6) == 0x40 && Pow2(8) == 0x100 && Pow2(9) == 0x200
    ensures Pow2(10) == 0x400 && Pow2(11) == 0x800 && Pow2(12) == 0x1000 && Pow2(13) == 0x2000
  {
    assert Pow2(6) == 0x40;
    assert Pow2(9) == 8 * Pow2(6);
    assert Pow2(12) == 8 * Pow2(9);
  }

  lemma GroupQuotients(group: nat)
    ensures Leading(group, 6) == group / 0x40 && Leading(group, 7) == group / 0x80
    ensures Leading(group, 8) == group / 0x100 && Leading(group, 9) == group / 0x200
    ensures Leading(group, 10) == group / 0x400 && Leading(group, 11) == group / 0x800
    ensures Leading(group, 12) == group / 0x1000 && Leading(group, 13) == group / 0x2000
  {
    SmallPowers();
    hide Pow2;
  }

  lemma WideV6Reserved(x: nat, group: nat)
    requires group == Leading(x, 112)
    ensures Contains(Block(V6, 0x00, 120), Address(V6, x)) <==> group < 0x100
    ensures Contains(Block(V6, 0x01, 120), Address(V6, x)) <==> 0x100 <= group < 0x200
    ensures Contains(Block(V6, 0x02 / 2, 121), Address(V6, x)) <==> 0x200 <= group < 0x400
    ensures Contains(Block(V6, 0x04 / 4, 122), Address(V6, x)) <==> 0x400 <= group < 0x800
    ensures Contains(Block(V6, 0x08 / 8, 123), Address(V6, x)) <==> 0x800 <= group < 0x1000
    ensures Contains(Block(V6, 0x10 / 0x10, 124), Address(V6, x)) <==> 0x1000 <= group < 0x2000
    ensures Contains(Block(V6, 0x40 / 0x20, 125), Address(V6, x)) <==> 0x4000 <= group < 0x6000
    ensures Contains(Block(V6, 0x60 / 0x20, 125), Address(V6, x)) <==> 0x6000 <= group < 0x8000
    ensures Contains(Block(V6, 0x80 / 0x20, 125), Address(V6, x)) <==> 0x8000 <= group < 0xa000
    ensures Contains(Block(V6, 0xa0 / 0x20, 125), Address(V6, x)) <==> 0xa000 <= group < 0xc000
    ensures Contains(Block(V6, 0xc0 / 0x20, 125), Address(V6, x)) <==> 0xc000 <= group < 0xe000
    ensures Contains(Block(V6, 0xe0 / 0x10, 124), Address(V6, x)) <==> 0xe000 <= group < 0xf000
    ensures Contains(Block(V6, 0xf0 / 8, 123), Address(V6, x)) <==> 0xf000 <= group < 0xf800
    ensures Contains(Block(V6, 0xf8 / 4, 122), Address(V6, x)) <==> 0xf800 <= group < 0xfc00
    ensures Contains(Block(V6, 0xfe00 / 0x80, 119), Address(V6, x)) <==> 0xfe00 <= group < 0xfe80
  {
    GroupQuotients(group);
    hide Pow2, Contains, Block, Leading;
    BlockHoldsGroup(0x00, 8, x);
    BlockHoldsGroup(0x01, 8, x);
    BlockHoldsGroup(1, 9, x);
    BlockHoldsGroup(1, 10, x);
    BlockHoldsGroup(1, 11, x);
    BlockHoldsGroup(1, 12, x);
    BlockHoldsGroup(2, 13, x);
    BlockHoldsGroup(3, 13, x);
    BlockHoldsGroup(4, 13, x);
    BlockHoldsGroup(5, 13, x);
    BlockHoldsGroup(6, 13, x);
    BlockHoldsGroup(0xe, 12, x);
    BlockHoldsGroup(0x1e, 11, x);
    BlockHoldsGroup(0x3e, 10, x);
    BlockHoldsGroup(0x1fc, 7, x);
  }

  lemma WideV6Other(x: nat, group: nat)
    requires group == Leading(x, 112) && group < 0x10000
    ensures Contains(Block(V6, 0x20010db8, 96), Address(V6, x)) <==> Leading(x, 96) == 0x20010db8
    ensures Contains(Block(V6, 0xfc / 2, 121), Address(V6, x)) <==> 0xfc00 <= group < 0xfe00
    ensures Contains(Block(V6, 0xfe80 / 0x40, 118), Address(V6, x)) <==> 0xfe80 <= group < 0xfec0
    ensures Contains(Block(V6, 0xff, 120), Address(V6, x)) <==> 0xff00 <= group
  {
    GroupQuotients(group);
    hide Pow2, Contains, Block, Leading;
    BlockHolds(V6, 0x20010db8, 96, x);
    BlockHoldsGroup(0x7e, 9, x);
    BlockHoldsGroup(0x3fa, 6, x);
    BlockHoldsGroup(0xff, 8, x);
  }

  lemma WideV6Inside(r: Network, x: nat)
    requires Leading(x, 112) < 0x10000 && r in WIDE_V6 && Contains(r, Address(V6, x))
    ensures InWideV6(x)
  {
    WideV6Members();
    hide Pow2, Contains, Block, WIDE_V4, WIDE_V6, Leading;
    WideV6Reserved(x, Leading(x, 112));
    WideV6Other(x, Leading(x, 112));
  }

  lemma WideV6Listed(x: nat) returns (r: Network)
    requires Leading(x, 112) < 0x10000 && InWideV6(x)
    ensures r in WIDE_V6 && Contains(r, Address(V6, x))
  {
    WideV6Members();
    hide Pow2, Contains, Block, WIDE_V4, WIDE_V6, Leading;
    var group := Leading(x, 112);
    WideV6Reserved(x, group);
    WideV6Other(x, group);
    r := if !WideGroup(group) then Block(V6, 0x20010db8, 96)
         else if group < 0x100 then Block(V6, 0x00, 120)
         else if group < 0x200 then Block(V6, 0x01, 120)
         else if group < 0x400 then Block(V6, 0x02 / 2, 121)
         else if group < 0x800 then Block(V6, 0x04 / 4, 122)
         else if group < 0x1000 then Block(V6, 0x08 / 8, 123)
         else if group < 0x2000 then Block(V6, 0x10 / 0x10, 124)
         else if group < 0x6000 then Block(V6, 0x40 / 0x20, 125)
         else if group < 0x8000 then Block(V6, 0x60 / 0x20, 125)
         else if group < 0xa000 then Block(V6, 0x80 / 0x20, 125)
         else if group < 0xc000 then Block(V6, 0xa0 / 0x20, 125)
         else if group < 0xe000 then Block(V6, 0xc0 / 0x20, 125)
         else if group < 0xf000 then Block(V6, 0xe0 / 0x10, 124)
         else if group < 0xf800 then Block(V6, 0xf0 / 8, 123)
         else if group < 0xfc00 then Block(V6, 0xf8 / 4, 122)
         else if group < 0xfe00 then Block(V6, 0xfc / 2, 121)
         else if group < 0xfe80 then Block(V6, 0xfe00 / 0x80, 119)
         else if group < 0xfec0 then Block(V6, 0xfe80 / 0x40, 118)
         else Block(V6, 0xff, 120);
  }

  lemma WideV6(a: Address)
    requires a.version == V6 && a.value < Pow2(Width(a.version))
    ensures InAny(WIDE_RANGES, a) <==> InWideV6(a.value)
  {
    var x := a.value;
    GroupBounded(a);
    V4IsNotV6();
    hide Pow2, Contains, WIDE_V4, WIDE_V6, InWideV6, Leading;
    if InAny(WIDE_RANGES, a) {
      var r :| r in WIDE_RANGES && Contains(r, a);
      NotAcross(r, a);
      assert r in WIDE_V6;
      WideV6Inside(r, x);
    }
    if InWideV6(x) {
      var r := WideV6Listed(x);
      assert r in WIDE_RANGES;
    }
  }

  lemma GroupBounded(a: Address)
    requires a.version == V6 && a.value < Pow2(Width(a.version))
    ensures Leading(a.value, 112) < 0x10000
  {
    Pow2Values();
    hide Pow2, Leading;
    LeadingSmall(a.value, 112, 16);
  }

  lemma NotAcross(r: Network, a: Address)
    ensures Contains(r, a) ==> r.version == a.version
  {
  }

  lemma V4IsNotV6()
    ensures forall r <- WIDE_V4 :: r.version == V4
  {
    hide Pow2;
  }

  lemma WideV6Members()
    ensures forall r :: r in WIDE_V6 <==> r in {
      Block(V6, 0x20010db8, 96), Block(V6, 0xfc / 2, 121), Block(V6, 0xfe80 / 0x40, 118), Block(V6, 0xff, 120),
      Block(V6, 0x00, 120), Block(V6, 0x01, 120), Block(V6, 0x02 / 2, 121), Block(V6, 0x04 / 4, 122),
      Block(V6, 0x08 / 8, 123), Block(V6, 0x10 / 0x10, 124), Block(V6, 0x40 / 0x20, 125), Block(V6, 0x60 / 0x20, 125),
      Block(V6, 0x80 / 0x20, 125), Block(V6, 0xa0 / 0x20, 125), Block(V6, 0xc0 / 0x20, 125),
      Block(V6, 0xe0 / 0x10, 124), Block(V6, 0xf0 / 8, 123), Block(V6, 0xf8 / 4, 122), Block(V6, 0xfe00 / 0x80, 119)}
  {
    hide Pow2, Block;
  }

  lemma WideV4One(r: Network, x: nat)
    requires r in WIDE_V4 && Contains(r, Address(V4, x))
    ensures InWideV4(x)
  {
    Pow2Values();
    Pow2Splits(16, 17);
    hide Pow2;
  }

  /** A network whose endpoints are outside the covered ranges is accepted when nothing is listed, or
      when an entry matches it. */
  lemma AcceptedWhenOutside(n: Network, p: Policy)
    requires !p.isMetadata(Cidr(n)) && !p.hasDeniedSuffix(Cidr(n)) && n.Size() <= p.maxCidrHosts && p.denyList == []
    requires !InAny(p.nonPublic, Address(n.version, n.base)) && !InAny(p.nonPublic, Address(n.version, n.Broadcast()))
    requires p.allowList == [] || MatchesAny(p, Cidr(n), p.allowList)
    ensures EnforcePolicy(Cidr(n), p) == Ok(Cidr(n))
  {
    hide InAny, Matches;
  }

  lemma OutsideOneMore(ranges: seq<Network>, more: Network, a: Address)
    requires !InAny(ranges, a) && !Contains(more, a)
    ensures !InAny(ranges + [more], a)
  {
    hide Contains;
  }

  /** The default policy accepts 198.51.96.0/20, which holds the whole special-purpose network
      198.51.100.0/24, although that is one of the ranges its address test covers. */
  lemma InnerRangeIsAccepted()
    ensures var n, inner := V4Network(198, 51, 96, 0, 20), V4Network(198, 51, 100, 0, 24);
      var p := BlockingPolicy(4096, WIDE_RANGES + [inner], [], "198.51.96.0/20", map[]);
      && EnforcePolicy(Cidr(n), p) == Ok(Cidr(n)) && p.blockPrivate && inner in p.nonPublic
      && n.Aligned() && Within(inner, n)
  {
    var n, inner := V4Network(198, 51, 96, 0, 20), V4Network(198, 51, 100, 0, 24);
    Pow2Values();
    hide Pow2, InAny, WIDE_RANGES, WIDE_V4, WIDE_V6;
    assert n.base == (198 * 0x1000 + 51 * 0x10 + 6) * n.Size();
    WideV4(n.base);
    WideV4(n.Broadcast());
    OutsideOneMore(WIDE_RANGES, inner, Address(V4, n.base));
    OutsideOneMore(WIDE_RANGES, inner, Address(V4, n.Broadcast()));
    AcceptedWhenOutside(n, BlockingPolicy(4096, WIDE_RANGES + [inner], [], "198.51.96.0/20", map[]));
  }

  /** With the limit raised to a /6, the policy accepts 8.0.0.0/6, which holds all of 10.0.0.0/8. */
  lemma WideRangeIsAcceptedWithoutLimit()
    ensures var n, private := V4Network(8, 0, 0, 0, 6), V4Network(10, 0, 0, 0, 8);
      var p := BlockingPolicy(0x400_0000, WIDE_RANGES, [], "8.0.0.0/6", map[]);
      && EnforcePolicy(Cidr(n), p) == Ok(Cidr(n)) && p.blockPrivate && private in p.nonPublic
      && n.Aligned() && Within(private, n)
  {
    var n, private := V4Network(8, 0, 0, 0, 6), V4Network(10, 0, 0, 0, 8);
    Pow2Values();
    assert private == WIDE_V4[1] == WIDE_RANGES[1];
    hide Pow2, InAny, WIDE_RANGES, WIDE_V4, WIDE_V6;
    assert n.base == 2 * n.Size();
    WideV4(n.base);
    WideV4(n.Broadcast());
    AcceptedWhenOutside(n, BlockingPolicy(0x400_0000, WIDE_RANGES, [], "8.0.0.0/6", map[]));
  }

  /** Under an allow-list with one entry that matches, 8.8.8.0/24 is accepted. */
  lemma AllowedByOneEntry(entry: string, named: map<string, Network>)
    requires var n := V4Network(8, 8, 8, 0, 24);
      Matches(BlockingPolicy(4096, WIDE_RANGES, [entry], "8.8.8.0/24", named), Cidr(n), entry)
    ensures var n := V4Network(8, 8, 8, 0, 24);
      EnforcePolicy(Cidr(n), BlockingPolicy(4096, WIDE_RANGES, [entry], "8.8.8.0/24", named)) == Ok(Cidr(n))
  {
    hide Pow2, InAny, WIDE_RANGES, Matches;
    var n := V4Network(8, 8, 8, 0, 24);
    Pow2Values();
    WideV4(n.base);
    WideV4(n.Broadcast());
    var p := BlockingPolicy(4096, WIDE_RANGES, [entry], "8.8.8.0/24", named);
    assert p.allowList[0] == entry;
    AcceptedWhenOutside(n, p);
  }

  /** Under the allow-list [8.8.8.0/28] the whole of 8.8.8.0/24 is accepted. */
  lemma LargerNetworkIsAllowed()
    ensures var n, allowed := V4Network(8, 8, 8, 0, 24), V4Network(8, 8, 8, 0, 28);
      var p := BlockingPolicy(4096, WIDE_RANGES, ["8.8.8.0/28"], "8.8.8.0/24", map["8.8.8.0/28" := allowed]);
      EnforcePolicy(Cidr(n), p) == Ok(Cidr(n)) && !Within(n, allowed)
  {
    hide WIDE_RANGES, EnforcePolicy;
    var n, allowed := V4Network(8, 8, 8, 0, 24), V4Network(8, 8, 8, 0, 28);
    var p := BlockingPolicy(4096, WIDE_RANGES, ["8.8.8.0/28"], "8.8.8.0/24", map["8.8.8.0/28" := allowed]);
    assert AddressesOf(Cidr(n))[0] == Address(V4, n.base);
    assert Contains(allowed, Address(V4, n.base));
    assert p.parse("8.8.8.0/28") == Some(allowed);
    AllowedByOneEntry("8.8.8.0/28", map["8.8.8.0/28" := allowed]);
    Pow2Monotone(5, 8);
    assert Pow2(5) == 2 * Pow2(4);
  }

  /** Under the allow-list [0/24], an entry that denotes no network at all, 8.8.8.0/24 is accepted. */
  lemma DottedEndingIsAllowed()
    ensures var n := V4Network(8, 8, 8, 0, 24);
      var p := BlockingPolicy(4096, WIDE_RANGES, ["0/24"], "8.8.8.0/24", map[]);
      EnforcePolicy(Cidr(n), p) == Ok(Cidr(n)) && p.parse("0/24") == None
  {
    hide WIDE_RANGES, EnforcePolicy, AddressesOf;
    assert EndsWith("8.8.8.0/24", ".0/24") && "." + "0/24" == ".0/24";
    AllowedByOneEntry("0/24", map[]);
  }

  // ----- expanding an accepted network ------------------------------------------------------

  /** The addresses a scanner may be pointed at, first and last. */
  function FirstHost(n: Network): nat {
    if n.bits >= 2 then n.base + 1 else n.base
  }

  function LastHost(n: Network): nat {
    if n.version == V4 && n.bits >= 2 then n.Broadcast() - 1 else n.Broadcast()
  }

  lemma HostsInRange(n: Network)
    ensures n.base <= FirstHost(n) <= LastHost(n) <= n.Broadcast()
  {
    if n.bits >= 2 {
      Pow2Monotone(2, n.bits);
      assert Pow2(2) == 4;
    }
  }

  method ExpandCidr(n: Network, limit: int) returns (hosts: seq<Address>)
    ensures |hosts| == Max(1, Min(limit, LastHost(n) - FirstHost(n) + 1))
    ensures forall i :: 0 <= i < |hosts| ==> hosts[i] == Address(n.version, FirstHost(n) + i)
    ensures forall i :: 0 <= i < |hosts| ==> Contains(n, hosts[i])
  {
    HostsInRange(n);
    hosts := [];
    var next := FirstHost(n);
    while next <= LastHost(n)
      invariant next == FirstHost(n) + |hosts| <= LastHost(n) + 1
      invariant |hosts| > 0 ==> |hosts| < limit
      invariant forall i :: 0 <= i < |hosts| ==> hosts[i] == Address(n.version, FirstHost(n) + i)
    {
      hosts := hosts + [Address(n.version, next)];
      next := next + 1;
      if |hosts| >= limit {
        break;
      }
    }
    if hosts == [] {
      hosts := [Address(n.version, n.base)];
    }
  }

  /** Which addresses are left out: of an IPv4 network up to /30 the first and the last one, of an IPv6
      network up to /126 the first one, of any smaller network none. */
  lemma EdgesAreLeftOut(n: Network, limit: int)
    requires n.bits <= Width(n.version) && limit >= n.Size()
    ensures var prefix := Width(n.version) - n.bits;
      var count := LastHost(n) - FirstHost(n) + 1;
      && (n.version == V4 && prefix <= 30 ==>
           FirstHost(n) == n.base + 1 && LastHost(n) == n.Broadcast() - 1 && count == n.Size() - 2)
      && (n.version == V4 && prefix >= 31 ==>
           FirstHost(n) == n.base && LastHost(n) == n.Broadcast() && count == n.Size())
      && (n.version == V6 && prefix <= 126 ==>
           FirstHost(n) == n.base + 1 && LastHost(n) == n.Broadcast() && count == n.Size() - 1)
      && (n.version == V6 && prefix >= 127 ==>
           FirstHost(n) == n.base && LastHost(n) == n.Broadcast() && count == n.Size())
  {
  }
}
