/** Internet addresses, the IPv4 block inside IPv6, and the two ways to match a range. */
module Addresses {

  datatype Ip = V4(bits: nat) | V6(bits: nat)

  function Pow2(n: nat): (p: nat)
    ensures p > 0
  {
    if n == 0 then 1 else 2 * Pow2(n - 1)
  }

  /** `x` without its last `k` bits. */
  function Above(x: nat, k: nat): int { x / Pow2(k) }

  function Width(ip: Ip): nat { if ip.V4? then 32 else 128 }

  predicate Valid(ip: Ip) { ip.bits < Pow2(Width(ip)) }

  type Address = ip: Ip | Valid(ip) witness V4(0)

  datatype Cidr = Cidr(range: Ip, mask: nat)

  type Range = c: Cidr | Valid(c.range) && c.mask <= Width(c.range) witness Cidr(V4(0), 0)

  const PREFIX: nat := 0xffff

  /** Section 2.5.5.2 of RFC 4291: eighty zeros, sixteen ones and an IPv4 address. */
  predicate IsMapped(ip: Ip) { ip.V6? && Above(ip.bits, 32) == PREFIX }

  /** An IPv4-mapped address becomes the IPv4 address; others stay. */
  function Normal(ip: Ip): Ip { if IsMapped(ip) then V4(ip.bits % Pow2(32)) else ip }

  /** The two addresses agree on their first `mask` bits. */
  predicate Match(ip: Ip, range: Ip, mask: nat)
    requires ip.V4? == range.V4? && mask <= Width(ip)
  {
    Above(ip.bits, Width(ip) - mask) == Above(range.bits, Width(ip) - mask)
  }

  // ---- one address space ----

  /** Every address as an IPv6 address. */
  function Embedded(ip: Ip): nat { if ip.V4? then PREFIX * Pow2(32) + ip.bits else ip.bits }

  function EmbeddedMask(range: Ip, mask: nat): nat { if range.V4? then mask + 96 else mask }

  predicate IsV4(ip: Ip) { ip.V4? || IsMapped(ip) }

  /** `x` lies in the aligned block of `size` addresses around `base`. */
  predicate InBlock(x: nat, base: nat, size: nat)
    requires size > 0
  {
    var start := base - base % size;
    start <= x < start + size
  }

  lemma BlockIsQuotient(x: nat, base: nat, size: nat)
    requires size > 0
    ensures InBlock(x, base, size) <==> x / size == base / size
  {
    var q := base / size;
    assert base - base % size == q * size;
    QuotientIs(x, q, size);
  }

  lemma BlockIsAbove(x: nat, base: nat, k: nat)
    ensures InBlock(x, base, Pow2(k)) <==> Above(x, k) == Above(base, k)
  {
    BlockIsQuotient(x, base, Pow2(k));
  }

  lemma QuotientIs(x: nat, q: nat, d: nat)
    requires d > 0
    ensures x / d == q <==> q * d <= x < q * d + d
  {
    var r := x / d;
    assert r * d <= x < r * d + d;
    if r < q {
      assert (r + 1) * d <= q * d;
    } else if r > q {
      assert (q + 1) * d <= r * d;
    }
  }

  lemma {:induction false} Pow2Add(m: nat, n: nat)
    ensures Pow2(m + n) == Pow2(m) * Pow2(n)
  {
    if m > 0 {
      Pow2Add(m - 1, n);
      assert Pow2(m + n) == 2 * (Pow2(m - 1) * Pow2(n));
      assert Pow2(m) * Pow2(n) == 2 * Pow2(m - 1) * Pow2(n);
    }
  }

  lemma Grows(a: nat, b: nat, d: nat)
    requires a <= b
    ensures a * d <= b * d
  {
  }

  lemma Regroup(q: nat, e: nat, d: nat)
    ensures q * e * d == q * (d * e) && (q * e + e) * d == q * (d * e) + d * e
  {
    assert q * e * d == q * (d * e) by { assert e * d == d * e; }
    assert (q * e + e) * d == q * e * d + e * d;
  }

  lemma Nested(x: nat, y: nat, q: nat, d: nat, e: nat)
    requires y * d <= x < (y + 1) * d
    requires q * e <= y < q * e + e
    ensures q * (d * e) <= x < q * (d * e) + d * e
  {
    Regroup(q, e, d);
    Grows(q * e, y, d);
    Grows(y + 1, q * e + e, d);
  }

  /** Dividing by a product is dividing twice. */
  lemma QuotientTwice(x: nat, d: nat, e: nat)
    requires d > 0 && e > 0 && d * e > 0
    ensures x / (d * e) == x / d / e
  {
    var y := x / d;
    var q := y / e;
    QuotientIs(x, y, d);
    QuotientIs(y, q, e);
    assert (y + 1) * d == y * d + d;
    Nested(x, y, q, d, e);
    QuotientIs(x, q, d * e);
  }

  lemma QuotientShift(a: nat, k: nat, d: nat)
    requires d > 0
    ensures (k * d + a) / d == k + a / d
  {
    var q := a / d;
    assert (k + q) * d == k * d + q * d;
    QuotientIs(k * d + a, k + q, d);
  }

  // ---- matching after normalization is membership in a block ----

  /** What the deny list does with a range: an IPv4-mapped one is read as an IPv4 range, or skipped when it is
      wider than the IPv4 block. */
  predicate RangeCovers(range: Ip, mask: nat, ip: Ip)
    requires mask <= Width(range)
  {
    var n, r := Normal(ip), Normal(range);
    var m := if IsMapped(range) then mask - 96 else mask;
    m >= 0 && n.V4? == r.V4? && Match(n, r, m)
  }

  lemma SplitBlock(k: nat)
    requires k <= 32
    ensures Pow2(32) == Pow2(k) * Pow2(32 - k)
  {
    Pow2Add(k, 32 - k);
  }

  /** Offsets in the IPv4 block match exactly when the embedded addresses do. */
  lemma MatchInV4Block(a: nat, b: nat, k: nat)
    requires k <= 32
    ensures Above(PREFIX * Pow2(32) + a, k) == Above(PREFIX * Pow2(32) + b, k) <==> Above(a, k) == Above(b, k)
  {
    hide Pow2;
    SplitBlock(k);
    var d, e := Pow2(k), Pow2(32 - k);
    assert PREFIX * Pow2(32) == (PREFIX * e) * d;
    QuotientShift(a, PREFIX * e, d);
    QuotientShift(b, PREFIX * e, d);
  }

  /** Addresses that agree on a long prefix agree on the IPv4 block. */
  lemma SameV4Block(x: nat, y: nat, k: nat)
    requires k <= 32 && Above(x, k) == Above(y, k)
    ensures Above(x, 32) == Above(y, 32)
  {
    hide Pow2;
    SplitBlock(k);
    QuotientTwice(x, Pow2(k), Pow2(32 - k));
    QuotientTwice(y, Pow2(k), Pow2(32 - k));
  }

  lemma EmbeddedV4(ip: Ip)
    requires Valid(ip)
    ensures IsV4(ip) ==> Normal(ip).V4? && Embedded(ip) == PREFIX * Pow2(32) + Normal(ip).bits
    ensures !IsV4(ip) ==> Normal(ip) == ip
    ensures IsV4(ip) <==> Above(Embedded(ip), 32) == PREFIX
  {
    hide Pow2;
    if ip.V4? { QuotientShift(ip.bits, PREFIX, Pow2(32)); }
  }

  /** A range covers an address exactly when the address lies in its block of the one address space; a block
      wider than the IPv4 addresses neither covers one of them nor is read around one of them. */
  lemma RangeIsBlock(range: Ip, mask: nat, ip: Ip)
    requires Valid(range) && Valid(ip) && mask <= Width(range)
    ensures var m := EmbeddedMask(range, mask);
      RangeCovers(range, mask, ip) <==>
        && InBlock(Embedded(ip), Embedded(range), Pow2(128 - m))
        && (IsV4(range) || IsV4(ip) ==> m >= 96)
  {
    hide Pow2;
    hide Above;
    hide InBlock;
    hide IsMapped;
    hide RangeCovers;
    hide Normal;
    var m := EmbeddedMask(range, mask);
    var x, y := Embedded(ip), Embedded(range);
    BlockIsAbove(x, y, 128 - m);
    EmbeddedV4(range);
    EmbeddedV4(ip);
    if m >= 96 {
      if Above(x, 128 - m) == Above(y, 128 - m) { SameV4Block(x, y, 128 - m); }
      MatchInV4Block(Normal(ip).bits, Normal(range).bits, 128 - m);
    }
    RangeCoversCases(range, mask, ip);
  }

  lemma RangeCoversCases(range: Ip, mask: nat, ip: Ip)
    requires mask <= Width(range)
    ensures var m := EmbeddedMask(range, mask);
      RangeCovers(range, mask, ip) <==>
        && IsV4(range) == IsV4(ip)
        && (IsV4(range) ==> m >= 96 && Above(Normal(ip).bits, 128 - m) == Above(Normal(range).bits, 128 - m))
        && (!IsV4(range) ==> Above(ip.bits, 128 - m) == Above(range.bits, 128 - m))
  {
    hide Pow2;
  }

  /** An IPv4-mapped range of at least 96 bits contains a mapped address exactly when the IPv4 range that is 96
      bits shorter contains the IPv4 address. */
  lemma MappedRangeIsV4Range(range: Ip, mask: nat, ip: Ip)
    requires Valid(range) && Valid(ip) && IsMapped(range) && IsMapped(ip) && 96 <= mask <= 128
    ensures InBlock(ip.bits, range.bits, Pow2(128 - mask)) <==> Match(Normal(ip), Normal(range), mask - 96)
  {
    hide Pow2;
    hide Above;
    hide InBlock;
    RangeIsBlock(range, mask, ip);
  }

  /** Two addresses are one in the address space exactly when their normal forms are equal. */
  lemma NormalIsEmbedded(a: Ip, b: Ip)
    requires Valid(a) && Valid(b)
    ensures Normal(a) == Normal(b) <==> Embedded(a) == Embedded(b)
  {
    hide Pow2;
    EmbeddedV4(a);
    EmbeddedV4(b);
  }
}
