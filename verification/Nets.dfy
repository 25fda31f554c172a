/** IPv4 networks as `ipnet::Ipv4Net` presents them: an address that may carry
    host bits, plus a prefix length. Containment is the crate's own test, on the
    first and last address of each network. */
module Nets {

  type Addr = a: int | 0 <= a < 0x1_0000_0000

  type PrefixLen = n: nat | n <= 32

  /** `10.0.0.1/24` and `10.0.0.0/24` are different values of this type that
      denote the same set of addresses. */
  datatype Net = Net(addr: Addr, len: PrefixLen)

  function Pow2(n: nat): (p: nat)
    ensures p > 0
  {
    if n == 0 then 1 else 2 * Pow2(n - 1)
  }

  /** How many addresses a prefix of length `len` spans. */
  function Span(len: PrefixLen): (s: nat)
    ensures s > 0
  {
    Pow2(32 - len)
  }

  /** The largest multiple of `span` that is at most `a`. */
  function AlignDown(a: nat, span: nat): (m: nat)
    requires span > 0
    ensures m <= a < m + span
  {
    a - a % span
  }

  /** `a` with everything below the first `len` bits cleared. */
  function Mask(a: Addr, len: PrefixLen): (m: nat)
    ensures m <= a < m + Span(len)
  {
    AlignDown(a, Span(len))
  }

  function Network(n: Net): (a: int)
    ensures 0 <= a <= n.addr
  {
    Mask(n.addr, n.len)
  }

  function Broadcast(n: Net): (a: int)
    ensures n.addr <= a
  {
    Network(n) + Span(n.len) - 1
  }

  /** `Ipv4Net::contains(&Ipv4Addr)`. */
  predicate Holds(n: Net, a: int) {
    Network(n) <= a <= Broadcast(n)
  }

  /** `Ipv4Net::contains(&Ipv4Net)`. */
  predicate Covers(outer: Net, inner: Net) {
    Network(outer) <= Network(inner) && Broadcast(inner) <= Broadcast(outer)
  }

  /** Some address belongs to both networks. */
  ghost predicate Share(a: Net, b: Net) {
    exists x: int :: Holds(a, x) && Holds(b, x)
  }

  /** The controller's two-way test: does either network contain the other's
      first address? */
  predicate Overlaps(a: Net, b: Net) {
    Holds(a, Network(b)) || Holds(b, Network(a))
  }

  lemma {:induction false} Pow2Splits(i: nat, j: nat)
    ensures Pow2(i + j) == Pow2(i) * Pow2(j)
  {
    if i == 0 {
    } else {
      Pow2Splits(i - 1, j);
      MulAssociates(2, Pow2(i - 1), Pow2(j));
    }
  }

  lemma MulAssociates(a: int, b: int, c: int)
    ensures a * (b * c) == (a * b) * c
  {
  }

  lemma CancelLess(m: nat, x: int, y: int)
    requires m > 0 && x * m < y * m
    ensures x < y
  {
    if x >= y {
      ScaleLeq(m, y, x);
      assert false;
    }
  }

  lemma ScaleLeq(m: nat, x: int, y: int)
    requires x <= y
    ensures x * m <= y * m
  {
    assert (y - x) * m >= 0;
    assert y * m == x * m + (y - x) * m;
  }

  lemma AlignIsMultiple(a: nat, span: nat) returns (k: int)
    requires span > 0
    ensures AlignDown(a, span) == k * span
  {
    k := a / span;
    assert a == span * (a / span) + a % span;
  }

  /** A masked address is a whole number of spans. */
  lemma MaskIsMultiple(a: Addr, len: PrefixLen) returns (k: int)
    ensures Mask(a, len) == k * Span(len)
  {
    k := AlignIsMultiple(a, Span(len));
  }

  /** Two blocks aligned to their own sizes, one size a multiple of the other:
      sharing one point already nests the smaller in the larger. */
  lemma AlignedNest(m: nat, q: nat, x: int, y: int, z: int)
    requires m > 0 && q > 0
    requires x * m <= z < x * m + m
    requires y * (q * m) <= z < y * (q * m) + q * m
    ensures y * (q * m) <= x * m
    ensures x * m + m <= y * (q * m) + q * m
  {
    assert y * (q * m) == (y * q) * m;
    assert x * m + m == (x + 1) * m;
    CancelLess(m, y * q, x + 1);
    ScaleLeq(m, y * q, x);
    assert y * (q * m) + q * m == (y * q + q) * m;
    CancelLess(m, x, y * q + q);
    ScaleLeq(m, x + 1, y * q + q);
  }

  /** Prefixes are nested or disjoint (section 3.1 of RFC 4632): when two
      networks share an address, the one with the shorter prefix covers the
      other. */
  lemma SharedAddressNests(outer: Net, inner: Net, z: int)
    requires outer.len <= inner.len
    requires Holds(outer, z) && Holds(inner, z)
    ensures Covers(outer, inner)
  {
    var q := Pow2(inner.len - outer.len);
    Pow2Splits(inner.len - outer.len, 32 - inner.len);
    var x := MaskIsMultiple(inner.addr, inner.len);
    var y := MaskIsMultiple(outer.addr, outer.len);
    AlignedNest(Span(inner.len), q, x, y, z);
  }

  /** The bound test on first and last address is exactly set inclusion. */
  lemma CoversIsInclusion(outer: Net, inner: Net)
    ensures Covers(outer, inner) <==> forall z: int :: Holds(inner, z) ==> Holds(outer, z)
  {
    if forall z: int :: Holds(inner, z) ==> Holds(outer, z) {
      assert Holds(inner, Network(inner)) && Holds(inner, Broadcast(inner));
    }
  }

  /** The two-way containment test answers "do these share an address" exactly,
      whatever host bits either network was written with. */
  lemma OverlapsIffShare(a: Net, b: Net)
    ensures Overlaps(a, b) <==> Share(a, b)
  {
    if Holds(a, Network(b)) {
      assert Holds(b, Network(b));
    } else if Holds(b, Network(a)) {
      assert Holds(a, Network(a));
    }
    if Share(a, b) {
      var x :| Holds(a, x) && Holds(b, x);
      if a.len <= b.len {
        SharedAddressNests(a, b, x);
      } else {
        SharedAddressNests(b, a, x);
      }
    }
  }

  /** An address is in a network iff masking it to the prefix length gives the
      network address: the comparison a longest-prefix trie makes. */
  lemma HoldsIffMaskEqual(n: Net, a: Addr)
    ensures Holds(n, a) <==> Mask(a, n.len) == Network(n)
  {
    if Holds(n, a) {
      var x := MaskIsMultiple(a, n.len);
      var y := MaskIsMultiple(n.addr, n.len);
      assert 1 * Span(n.len) == Span(n.len);
      AlignedNest(Span(n.len), 1, x, y, a);
      AlignedNest(Span(n.len), 1, y, x, a);
    }
  }
}
