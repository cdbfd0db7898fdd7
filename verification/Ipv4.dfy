/** IPv4 addresses and CIDR blocks, as Python's `ipaddress` module treats them
    (section 3.1 of RFC 4632): a block of length `len` is the `2^(32-len)`
    consecutive addresses that start at a multiple of that number. */
module Ipv4 {

  type Addr = a: int | 0 <= a < 0x1_0000_0000

  function Pow2(n: nat): (p: nat)
    ensures p >= 1
  {
    if n == 0 then 1 else 2 * Pow2(n - 1)
  }

  datatype Cidr = Cidr(base: int, len: nat) {
    function Size(): (s: nat)
      ensures s >= 1
    {
      if len <= 32 then Pow2(32 - len) else 1
    }

    predicate WellFormed() {
      && len <= 32
      && 0 <= base
      && base % Size() == 0
      && base + Size() <= 0x1_0000_0000
    }

    predicate Contains(a: Addr) {
      base <= a < base + Size()
    }

    /** `subnet_of`: every endpoint of this block lies inside `other`. */
    predicate SubnetOf(other: Cidr) {
      other.base <= base && base + Size() <= other.base + other.Size()
    }
  }

  /** `ip_network(text, strict=False)`: the host bits are cleared. */
  function NetOf(ip: Addr, len: nat): (n: Cidr)
    requires len <= 32
    ensures n.len == len && 0 <= n.base <= ip
  {
    if len == 32 then Cidr(ip, 32)
    else
      MaskedIsMultiple(ip, Pow2(32 - len));
      Cidr(ip - ip % Pow2(32 - len), len)
  }

  lemma NetOfWellFormed(ip: Addr, len: nat)
    requires len <= 32
    ensures NetOf(ip, len).WellFormed() && NetOf(ip, len).Contains(ip)
  {
    if len < 32 {
      var size := Pow2(32 - len);
      MaskedIsMultiple(ip, size);
      BlockFits(ip - ip % size, len);
    } else {
      assert Pow2(0) == 1;
    }
  }

  /** Clearing the host bits of a block's own first address changes nothing. */
  lemma NetOfBase(n: Cidr)
    requires n.WellFormed() && n.base < 0x1_0000_0000
    ensures NetOf(n.base, n.len) == n
  {
  }

  lemma BlockFits(base: nat, len: nat)
    requires len <= 32 && base < 0x1_0000_0000 && base % Pow2(32 - len) == 0
    ensures base + Pow2(32 - len) <= 0x1_0000_0000
  {
    var s := Pow2(32 - len);
    Pow2Split(32 - len, 32);
    assert Pow2(32) == Pow2(len) * s;
    Pow2Of32();
    MultipleMod(Pow2(len), s);
    AddMultiple(base, s);
    MultiplesGap(0x1_0000_0000, base + s, s);
  }

  lemma Pow2Of32()
    ensures Pow2(32) == 0x1_0000_0000
  {
    assert Pow2(8) == 256;
    Pow2Split(8, 16);
    Pow2Split(16, 32);
  }

  lemma MaskedIsMultiple(x: nat, s: nat)
    requires s > 0
    ensures 0 <= x - x % s && (x - x % s) % s == 0
  {
    var q := x / s;
    assert x - x % s == q * s;
    MultipleMod(q, s);
  }

  lemma MultipleMod(q: nat, s: nat)
    requires s > 0
    ensures (q * s) % s == 0
  {
    if q > 0 {
      MultipleMod(q - 1, s);
      assert q * s == (q - 1) * s + s;
      AddMultiple((q - 1) * s, s);
    }
  }

  lemma AddMultiple(x: nat, s: nat)
    requires s > 0
    ensures (x + s) % s == x % s
  {
    var q, r := x / s, x % s;
    assert x + s == (q + 1) * s + r;
    DivModUnique(x + s, s, q + 1, r);
  }

  lemma DivModUnique(x: nat, s: nat, q: nat, r: nat)
    requires s > 0 && r < s && x == q * s + r
    ensures x / s == q && x % s == r
  {
    var q', r' := x / s, x % s;
    assert x == q' * s + r';
    if q' < q {
      assert (q' + 1) * s <= q * s by { MulMonotone(q' + 1, q, s); }
    } else if q < q' {
      assert (q + 1) * s <= q' * s by { MulMonotone(q + 1, q', s); }
    }
  }

  lemma MulMonotone(a: nat, b: nat, s: nat)
    requires a <= b
    ensures a * s <= b * s
  {
  }

  lemma MulCancel(a: nat, b: nat, s: nat)
    requires a * s > b * s
    ensures a > b
  {
    if a <= b {
      MulMonotone(a, b, s);
    }
  }

  lemma Pow2Split(a: nat, b: nat)
    requires a <= b
    ensures Pow2(b) == Pow2(b - a) * Pow2(a)
  {
    if a < b {
      Pow2Split(a, b - 1);
    }
  }

  /** Two multiples of `s` that are less than `s` apart are ordered weakly. */
  lemma MultiplesGap(x: nat, y: nat, s: nat)
    requires s > 0 && x % s == 0 && y % s == 0 && x + s > y
    ensures x >= y
  {
    var p, q := x / s, y / s;
    assert x == p * s && y == q * s;
    MulCancel(p + 1, q, s);
    MulMonotone(q, p, s);
  }

  lemma MultipleOfMultiple(x: nat, k: nat, s: nat)
    requires s > 0 && k > 0 && x % (k * s) == 0
    ensures x % s == 0
  {
    var q := x / (k * s);
    assert x == (q * k) * s;
    MultipleMod(q * k, s);
  }

  /** The shorter block (the one with the longer prefix) is inside the other as
      soon as they share one address. */
  lemma SharedMeansInside(n: Cidr, m: Cidr, a: Addr)
    requires n.WellFormed() && m.WellFormed()
    requires m.len <= n.len && n.Contains(a) && m.Contains(a)
    ensures n.SubnetOf(m)
  {
    var s, k := n.Size(), Pow2(n.len - m.len);
    Pow2Split(32 - n.len, 32 - m.len);
    assert m.Size() == k * s;
    MultipleOfMultiple(m.base, k, s);
    MultiplesGap(n.base, m.base, s);
    MultipleMod(k, s);
    SumMultiple(m.base, k, s);
    MultiplesGap(m.base + m.Size(), n.base + s, s) by {
      AddMultiple(n.base, s);
    }
  }

  lemma SumMultiple(x: nat, k: nat, s: nat)
    requires s > 0 && x % s == 0
    ensures (x + k * s) % s == 0
  {
    var q := x / s;
    assert x + k * s == (q + k) * s;
    MultipleMod(q + k, s);
  }

  /** CIDR blocks are nested or disjoint, so the two `subnet_of` tests of the
      sanitizer find exactly the blocks that share an address. */
  lemma NestedOrDisjoint(n: Cidr, m: Cidr)
    requires n.WellFormed() && m.WellFormed()
    ensures (n.SubnetOf(m) || m.SubnetOf(n)) <==> (exists a: Addr :: n.Contains(a) && m.Contains(a))
  {
    if a: Addr :| n.Contains(a) && m.Contains(a) {
      if m.len <= n.len {
        SharedMeansInside(n, m, a);
      } else {
        SharedMeansInside(m, n, a);
      }
    }
    if n.SubnetOf(m) {
      assert n.Contains(n.base) && m.Contains(n.base);
    } else if m.SubnetOf(n) {
      assert m.Contains(m.base) && n.Contains(m.base);
    }
  }
}
