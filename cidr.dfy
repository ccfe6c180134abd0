/**
 * Prefix notation for address blocks (section 3.1 of RFC 4632 for IPv4,
 * section 2.3 of RFC 4291 for IPv6), as the strict network constructors of
 * the address library read it: a /N block of a W-bit family starts at its
 * network address and holds 2^(W-N) addresses.  A base address with host
 * bits set is rejected, not rounded down.
 */
module Cidr {
  import opened Wrappers

  /** Address family of a block or of an address. */
  datatype Family = V4 | V6

  /** Address width in bits. */
  function Width(f: Family): nat
  {
    match f
    case V4 => 32
    case V6 => 128
  }

  function Pow2(n: nat): (r: nat)
    ensures r >= 1
  {
    if n == 0 then 1 else 2 * Pow2(n - 1)
  }

  lemma {:induction false} Pow2Add(a: nat, b: nat)
    ensures Pow2(a + b) == Pow2(a) * Pow2(b)
  {
    if a > 0 {
      Pow2Add(a - 1, b);
      assert Pow2(a + b) == 2 * Pow2(a - 1 + b);
    }
  }

  /** Number of addresses in a block of prefix length `len`. */
  function HostCount(f: Family, len: nat): (n: nat)
    requires len <= Width(f)
    ensures n >= 1
  {
    Pow2(Width(f) - len)
  }

  /** The network number of `v`: its leading `len` bits. */
  function NetworkNumber(f: Family, v: nat, len: nat): int
    requires len <= Width(f)
  {
    v / HostCount(f, len)
  }

  /** A normalised block: the first and last address as unsigned integers. */
  datatype Block = Block(family: Family, first: nat, last: nat)

  datatype CidrError = PrefixLengthOutOfRange | AddressOutOfRange | HostBitsSet

  /** The `k` low-order bits of `v` (the host bits of a block with `k`
      host bits) are all zero. */
  predicate HostBitsClear(v: nat, k: nat)
  {
    k == 0 || (v % 2 == 0 && HostBitsClear(v / 2, k - 1))
  }

  /** What strict parsing accepts: a length within the family width, an address
      of the family's width, and no host bit set. */
  predicate IsStrictBlock(f: Family, base: nat, len: nat)
  {
    len <= Width(f) && base < Pow2(Width(f)) && HostBitsClear(base, Width(f) - len)
  }

  /** Normalise the block `base/len` of family `f` into its address interval. */
  function Normalize(f: Family, base: nat, len: nat): (r: Result<Block, CidrError>)
    ensures r.Success? <==> IsStrictBlock(f, base, len)
    ensures r.Failure? && len > Width(f) ==> r.error == PrefixLengthOutOfRange
    ensures r.Success? ==> r.value.family == f && r.value.first == base
    ensures r.Success? ==> r.value.first <= r.value.last < Pow2(Width(f))
  {
    if len > Width(f) then Failure(PrefixLengthOutOfRange)
    else if base >= Pow2(Width(f)) then Failure(AddressOutOfRange)
    else if !HostBitsClear(base, Width(f) - len) then Failure(HostBitsSet)
    else
      BlockFits(f, base, len);
      Success(Block(f, base, base + HostCount(f, len) - 1))
  }

  /** A multiple of `d` strictly between `-d` and `d` is zero. */
  lemma SmallMultiple(k: int, d: int)
    requires d > 0 && -d < k * d < d
    ensures k == 0
  {
    if k >= 1 {
      MulMono(1, k, d);
    }
  }

  /** Doubling both sides doubles the remainder. */
  lemma ModDouble(q: nat, p: nat)
    requires p >= 1
    ensures (2 * q) % (2 * p) == 2 * (q % p)
  {
    var a := q / p;
    var b := q % p;
    assert q == a * p + b;
    var x := 2 * q;
    var d := 2 * p;
    assert x == a * d + 2 * b;
    assert x == (x / d) * d + x % d;
    assert (a - x / d) * d == x % d - 2 * b;
    SmallMultiple(a - x / d, d);
  }

  /** An odd number is no multiple of an even one. */
  lemma OddNotAligned(v: nat, p: nat)
    requires p >= 1 && v % 2 == 1
    ensures v % (2 * p) != 0
  {
    var d := 2 * p;
    assert v == 2 * ((v / d) * p) + v % d;
  }

  /** Clear host bits are the same as alignment to the block size. */
  lemma {:induction false} HostBitsClearIsAligned(v: nat, k: nat)
    ensures HostBitsClear(v, k) <==> v % Pow2(k) == 0
  {
    if k > 0 {
      var p := Pow2(k - 1);
      assert Pow2(k) == 2 * p;
      HostBitsClearIsAligned(v / 2, k - 1);
      if v % 2 == 0 {
        assert v == 2 * (v / 2);
        ModDouble(v / 2, p);
      } else {
        OddNotAligned(v, p);
      }
    }
  }

  lemma MulMono(a: nat, b: nat, h: nat)
    requires a <= b
    ensures a * h <= b * h
  {
  }

  lemma AlignedIsNetworkAddress(base: nat, h: nat)
    requires h >= 1 && base % h == 0
    ensures (base / h) * h == base
  {
    assert base == (base / h) * h + base % h;
  }

  /** An h-aligned address below n * h is followed by a whole run of h
      addresses below n * h. */
  lemma AlignedFits(base: nat, h: nat, n: nat)
    requires h >= 1 && base % h == 0 && base < n * h
    ensures base + h <= n * h
  {
    var q := base / h;
    assert base == q * h + base % h;
    assert base == q * h;
    if q >= n {
      MulMono(n, q, h);
      assert false;
    }
    MulMono(q + 1, n, h);
    assert (q + 1) * h == q * h + h;
  }

  /** An aligned block that starts inside the address space also ends inside it. */
  lemma BlockFits(f: Family, base: nat, len: nat)
    requires IsStrictBlock(f, base, len)
    ensures base + HostCount(f, len) <= Pow2(Width(f))
  {
    var h := HostCount(f, len);
    HostBitsClearIsAligned(base, Width(f) - len);
    Pow2Add(len, Width(f) - len);
    assert Pow2(Width(f)) == Pow2(len) * h;
    AlignedFits(base, h, Pow2(len));
  }

  /** `v / h == q` exactly when `v` lies in the h-aligned run starting at `q * h`. */
  lemma DivRange(v: nat, q: nat, h: nat)
    requires h > 0
    ensures v / h == q <==> q * h <= v < q * h + h
  {
    var d := v / h;
    var m := v % h;
    assert v == d * h + m && 0 <= m < h;
    if d < q {
      MulMono(d + 1, q, h);
      assert (d + 1) * h == d * h + h;
    } else if d > q {
      MulMono(q + 1, d, h);
      assert (q + 1) * h == q * h + h;
    }
  }

  /** For an h-aligned base, `v` is in `[base, base + h - 1]` exactly when
      `v / h == base / h`. */
  lemma AlignedMembership(base: nat, h: nat, v: nat)
    requires h >= 1 && base % h == 0
    ensures base <= v <= base + h - 1 <==> v / h == base / h
  {
    var q := base / h;
    assert base == q * h + base % h;
    DivRange(v, q, h);
  }

  /** The block runs from its network address (the base with every host bit
      cleared) to the address with every host bit set: 2^(W-N) addresses. */
  lemma NormalizeBounds(f: Family, base: nat, len: nat)
    requires Normalize(f, base, len).Success?
    ensures var b := Normalize(f, base, len).value;
            && b.first == NetworkNumber(f, base, len) * HostCount(f, len)
            && b.last == b.first + HostCount(f, len) - 1
  {
    HostBitsClearIsAligned(base, Width(f) - len);
    AlignedIsNetworkAddress(base, HostCount(f, len));
  }

  /** An address is in a block exactly when it has the block's network number. */
  lemma BlockMembership(f: Family, base: nat, len: nat, v: nat)
    requires Normalize(f, base, len).Success?
    ensures var b := Normalize(f, base, len).value;
            b.first <= v <= b.last <==> NetworkNumber(f, v, len) == NetworkNumber(f, base, len)
  {
    HostBitsClearIsAligned(base, Width(f) - len);
    AlignedMembership(base, HostCount(f, len), v);
  }

  lemma Pow2Of24()
    ensures Pow2(24) == 16777216
  {
    assert Pow2(2) == 4;
    Pow2Add(2, 2);
    Pow2Add(4, 4);
    Pow2Add(8, 8);
    Pow2Add(16, 8);
  }

  /** 10.0.0.0/8 spans 10.0.0.0 to 10.255.255.255. */
  lemma TenSlashEight()
    ensures Normalize(V4, 167772160, 8) == Success(Block(V4, 167772160, 184549375))
  {
    Pow2Of24();
    HostBitsClearIsAligned(167772160, 24);
    assert HostCount(V4, 8) == 16777216;
  }

  /** A /33 is out of range for IPv4. */
  lemma SlashThirtyThreeRejected()
    ensures Normalize(V4, 167772160, 33) == Failure(PrefixLengthOutOfRange)
  {
  }

  /** 10.0.0.1/8 has a host bit set and is rejected rather than rounded down. */
  lemma HostBitsRejected()
    ensures Normalize(V4, 167772161, 8) == Failure(HostBitsSet)
  {
    Pow2Of24();
    HostBitsClearIsAligned(167772161, 24);
  }
}
