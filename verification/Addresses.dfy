/** Addresses, prefixes and the mask arithmetic of Go's `net` package and the CNI `ip` package.
    An address of a family with `w` bits is a natural number below `Pow2(w)`. */
module Addresses {

  datatype Option<+T> = None | Some(value: T)

  lemma Assoc<T>(a: seq<T>, b: seq<T>, c: seq<T>)
    ensures a + b + c == a + (b + c)
  {
  }

  function Pow2(k: nat): (r: nat)
    ensures r > 0
  {
    if k == 0 then 1 else 2 * Pow2(k - 1)
  }

  /** `ip.Mask(mask)`: clear the `host` low bits, one bit at a time. */
  function Mask(a: nat, host: nat): nat {
    if host == 0 then a else 2 * Mask(a / 2, host - 1)
  }

  /** `IPNet.Contains`: both sides are masked before they are compared, so `ip` need not be
      the network address. */
  predicate InNet(ip: nat, host: nat, a: nat) {
    Mask(ip, host) == Mask(a, host)
  }

  // ---------------------------------------------------------------- blocks as ranges of numbers

  /** The greatest multiple of `d` up to `a`. */
  function Floor(a: nat, d: nat): nat
    requires d > 0
  {
    a / d * d
  }

  /** The first address of the block of `2^host` addresses that holds `ip`. */
  function First(ip: nat, host: nat): nat {
    Floor(ip, Pow2(host))
  }

  /** The block as a range of numbers. */
  predicate InBlock(ip: nat, host: nat, a: nat) {
    First(ip, host) <= a < First(ip, host) + Pow2(host)
  }

  /** Two nets share an address. */
  ghost predicate Intersect(ip: nat, host: nat, ip': nat, host': nat) {
    exists a: nat :: InBlock(ip, host, a) && InBlock(ip', host', a)
  }

  lemma FloorOfMultiple(a: nat, d: nat)
    requires d > 0
    ensures Floor(a, d) == a <==> a % d == 0
  {
    assert a == a / d * d + a % d;
  }

  lemma PowersOfTwo()
    ensures Pow2(0) == 1 && Pow2(8) == 0x100 && Pow2(16) == 0x1_0000
    ensures Pow2(24) == 0x100_0000 && Pow2(32) == 0x1_0000_0000
  {
    assert Pow2(4) == 16;
    assert Pow2(12) == 0x1000;
    assert Pow2(20) == 0x10_0000;
    assert Pow2(28) == 0x1000_0000;
  }

  lemma Quotient(a: nat, d: nat, q: nat, r: nat)
    requires a == q * d + r && r < d
    ensures a / d == q && a % d == r
  {
    SameQuotient(q, a / d, d, a);
  }

  /** Multiples of `d` are at least `d` apart. */
  lemma Apart(q: nat, q': nat, d: nat)
    requires q < q'
    ensures q * d + d <= q' * d
  {
    assert (q + 1) * d <= q' * d;
  }

  /** An address is in the block of `d` numbers from `q * d` on exactly when `q` is its quotient. */
  lemma SameQuotient(q: nat, q': nat, d: nat, a: nat)
    requires q' * d <= a < q' * d + d
    ensures q * d <= a < q * d + d <==> q == q'
  {
    if q < q' {
      Apart(q, q', d);
    } else if q' < q {
      Apart(q', q, d);
    }
  }

  lemma HalfQuotient(a: nat, d: nat)
    requires d > 0
    ensures a / (2 * d) == a / 2 / d
  {
    var q, r := a / 2 / d, a / 2 % d;
    assert a / 2 == q * d + r;
    assert a == q * (2 * d) + (2 * r + a % 2);
    Quotient(a, 2 * d, q, 2 * r + a % 2);
  }

  /** Clearing the low bits rounds down to the first address of the block. */
  lemma {:induction false} MaskRoundsDown(a: nat, host: nat)
    ensures Mask(a, host) == First(a, host)
  {
    if host > 0 {
      MaskRoundsDown(a / 2, host - 1);
      HalfQuotient(a, Pow2(host - 1));
      var q := a / Pow2(host);
      assert 2 * (q * Pow2(host - 1)) == q * (2 * Pow2(host - 1));
    }
  }

  /** `Contains` on numbers: the same quotient, that is, inside the range of the block. */
  lemma {:induction false} InNetIsRange(ip: nat, host: nat, a: nat)
    ensures InNet(ip, host, a) <==> ip / Pow2(host) == a / Pow2(host)
    ensures InNet(ip, host, a) <==> InBlock(ip, host, a)
  {
    var d := Pow2(host);
    MaskRoundsDown(ip, host);
    MaskRoundsDown(a, host);
    SameQuotient(ip / d, a / d, d, a);
  }

  /** Clearing more bits keeps equal what is already equal. */
  lemma {:induction false} MaskCoarser(a: nat, b: nat, fine: nat, coarse: nat)
    requires fine <= coarse && Mask(a, fine) == Mask(b, fine)
    ensures Mask(a, coarse) == Mask(b, coarse)
  {
    if fine != 0 {
      MaskCoarser(a / 2, b / 2, fine - 1, coarse - 1);
    }
  }

  /** Blocks are nested or disjoint (section 3.1 of RFC 4632): a shared address `x` puts the whole
      range of the smaller block inside that of the larger one. */
  lemma NestedOrDisjoint(ip: nat, host: nat, ip': nat, host': nat, x: nat, y: nat)
    requires host' <= host
    requires InNet(ip, host, x) && InNet(ip', host', x)
    requires InBlock(ip', host', y)
    ensures InNet(ip, host, y) && InBlock(ip, host, y)
  {
    InNetIsRange(ip', host', y);
    MaskCoarser(x, y, host', host);
    InNetIsRange(ip, host, y);
  }

  /** The two-way Contains test of the bridge set-up decides subnet intersection. */
  lemma TwoWayContainsIsIntersection(ip: nat, host: nat, ip': nat, host': nat)
    ensures InNet(ip, host, ip') || InNet(ip', host', ip) <==> Intersect(ip, host, ip', host')
  {
    InNetIsRange(ip, host, ip');
    InNetIsRange(ip', host', ip);
    InNetIsRange(ip, host, ip);
    InNetIsRange(ip', host', ip');
    if x: nat :| InBlock(ip, host, x) && InBlock(ip', host', x) {
      InNetIsRange(ip, host, x);
      InNetIsRange(ip', host', x);
      if host' <= host {
        NestedOrDisjoint(ip, host, ip', host', x, ip');
      } else {
        NestedOrDisjoint(ip', host', ip, host, x, ip);
      }
    }
  }

  /** An IPv4 CIDR block as `net.ParseCIDR` returns it. */
  datatype Cidr = Cidr(base: nat, len: nat) {
    function HostBits(): nat {
      if len <= 32 then 32 - len else 0
    }

    predicate Contains(a: nat) {
      InNet(base, HostBits(), a)
    }

    /** What `net.ParseCIDR` guarantees: a prefix length of at most 32 and a masked base. */
    ghost predicate Valid() {
      len <= 32 && base < Pow2(32) && Mask(base, HostBits()) == base
    }
  }

  /** What a CIDR holds: a valid one starts at a multiple of its size, and contains exactly the
      `2^(32 - len)` addresses from its base on. */
  lemma CidrIsRange(c: Cidr, a: nat)
    ensures c.Valid() <==> c.len <= 32 && c.base < 0x1_0000_0000 && c.base % Pow2(32 - c.len) == 0
    ensures c.Valid() ==> (c.Contains(a) <==> c.base <= a < c.base + Pow2(32 - c.len))
  {
    PowersOfTwo();
    if c.len <= 32 {
      MaskRoundsDown(c.base, c.HostBits());
      FloorOfMultiple(c.base, Pow2(c.HostBits()));
      InNetIsRange(c.base, c.HostBits(), a);
    }
  }

  lemma ValidCidrHolds(c: Cidr, a: nat)
    requires c.Valid()
    ensures c.Contains(a) <==> c.base <= a < c.base + Pow2(32 - c.len)
  {
    CidrIsRange(c, a);
  }

  ghost predicate Overlap(c: Cidr, d: Cidr) {
    exists a: nat :: c.Contains(a) && d.Contains(a)
  }

  /** `ip.NextIP` adds one to the big-endian value and returns the big integer's bytes without
      leading zeros, so the result is a `w`-bit address only when its top octet is non-zero
      and nothing is carried out of it. */
  function NextIP(a: nat, w: nat): Option<nat>
    requires w >= 8
  {
    if Pow2(w - 8) <= a + 1 < Pow2(w) then Some(a + 1) else None
  }

  /** For IPv4: the successor, if it is between 1.0.0.0 and 255.255.255.255. */
  lemma NextIPv4(a: nat)
    ensures NextIP(a, 32) == if 0x100_0000 <= a + 1 <= 0xFFFF_FFFF then Some(a + 1) else None
  {
    PowersOfTwo();
  }

  /** With a free bit, the successor of the network address stays in the block. */
  lemma MaskSuccessor(a: nat, host: nat)
    requires Mask(a, host) == a
    ensures Mask(a + 1, host) == a <==> host > 0
  {
  }
}
