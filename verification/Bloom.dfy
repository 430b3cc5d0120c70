/** The Bloom filter over a byte array: its bits are exactly the union of the index sets of what was added. */
module Bloom {

  const TWO_32: nat := 0x1_0000_0000
  const TWO_64: nat := 0x1_0000_0000_0000_0000

  /** The 64-bit FNV-1a sum, left uninterpreted. */
  type Hash = string -> nat

  /** The i-th probe for a sum: double hashing on its halves, in wrapping 64-bit arithmetic, modulo m. */
  function Index(sum: nat, i: nat, m: nat): (idx: nat)
    requires m > 0
    ensures idx < m
  {
    var h1, h2 := sum % TWO_32, (sum / TWO_32) % TWO_32;
    (h1 + i * h2) % TWO_64 % m
  }

  lemma NextStride(low: nat, high: nat, i: nat, m: nat)
    requires m > 0
    ensures (low + (i + 1) * high) % m == ((low + i * high) % m + high) % m
  {
    assert low + (i + 1) * high == (low + i * high) + high;
    ModAdd(low + i * high, high, m);
  }

  /** For the numbers of probes in use, the 64-bit arithmetic does not wrap around. */
  lemma IndexPlain(sum: nat, i: nat, m: nat)
    requires m > 0 && sum < TWO_64 && i <= 0x7FFF_FFFF
    ensures Index(sum, i, m) == (sum % TWO_32 + i * (sum / TWO_32)) % m
  {
    var low, high := sum % TWO_32, sum / TWO_32;
    assert high < TWO_32 && high % TWO_32 == high;
    NoWrap(low, high, i);
  }

  lemma NoWrap(low: nat, high: nat, i: nat)
    requires low < TWO_32 && high < TWO_32 && i <= 0x7FFF_FFFF
    ensures (low + i * high) % TWO_64 == low + i * high
  {
    assert i * high <= 0x7FFF_FFFF * high <= 0x7FFF_FFFF * 0xFFFF_FFFF;
  }

  lemma MoreTimes(q: int, d: int, m: nat)
    requires q > d
    ensures q * m >= d * m + m
  {
    assert (q - d - 1) * m >= 0;
  }

  lemma SplitUnique(q: int, d: int, r: nat, rest: nat, m: nat)
    requires q * m + r == d * m + rest && r < m && rest < m
    ensures r == rest
  {
    if q > d {
      MoreTimes(q, d, m);
    } else if q < d {
      MoreTimes(d, q, m);
    }
  }

  lemma Divided(x: nat, m: nat) returns (q: nat, r: nat)
    requires m > 0
    ensures x == q * m + r && r < m && r == x % m
  {
    q, r := x / m, x % m;
  }

  lemma ModAdd(a: nat, b: nat, m: nat)
    requires m > 0
    ensures (a + b) % m == (a % m + b) % m
  {
    var q, r := Divided(a, m);
    var q1, r1 := Divided(r + b, m);
    var q2, r2 := Divided(a + b, m);
    assert a + b == (q + q1) * m + r1;
    SplitUnique(q + q1, q2, r1, r2, m);
  }

  /** The probes start at the lower half of the sum. */
  lemma FirstProbe(sum: nat, m: nat)
    requires m > 0 && sum < TWO_64
    ensures Index(sum, 0, m) == sum % 0x1_0000_0000 % m
  {
    IndexPlain(sum, 0, m);
  }

  /** And go on in strides of its upper half, around the array. */
  lemma NextProbe(sum: nat, i: nat, m: nat) returns (stride: nat)
    requires m > 0 && sum < TWO_64 && i < 0x7FFF_FFFF
    ensures stride == sum / 0x1_0000_0000 && Index(sum, i + 1, m) == (Index(sum, i, m) + stride) % m
  {
    stride := sum / TWO_32;
    IndexPlain(sum, i, m);
    IndexPlain(sum, i + 1, m);
    NextStride(sum % TWO_32, stride, i, m);
  }

  ghost predicate Probes(hash: Hash, k: nat, m: nat, data: string, j: nat)
    requires m > 0
  {
    exists i :: 0 <= i < k && Index(hash(data), i, m) == j
  }

  /** Some added element probes position j. */
  ghost predicate Covered(hash: Hash, k: nat, m: nat, added: set<string>, j: nat)
    requires m > 0
  {
    exists d :: d in added && Probes(hash, k, m, d, j)
  }

  /** Every probe of data is covered: what Test reports. */
  ghost predicate Passes(hash: Hash, k: nat, m: nat, added: set<string>, data: string)
    requires m > 0
  {
    forall j :: Probes(hash, k, m, data, j) ==> Covered(hash, k, m, added, j)
  }

  lemma NoFalseNegatives(hash: Hash, k: nat, m: nat, added: set<string>, data: string)
    requires m > 0 && data in added
    ensures Passes(hash, k, m, added, data)
  {
  }

  /** What passes keeps passing, whatever is added. */
  lemma PassesGrows(hash: Hash, k: nat, m: nat, added: set<string>, more: set<string>, data: string)
    requires m > 0 && added <= more && Passes(hash, k, m, added, data)
    ensures Passes(hash, k, m, more, data)
  {
    forall j | Probes(hash, k, m, data, j)
      ensures Covered(hash, k, m, more, j)
    {
      var d :| d in added && Probes(hash, k, m, d, j);
      assert d in more;
    }
  }

  lemma CoveredAdd(hash: Hash, k: nat, m: nat, added: set<string>, data: string, j: nat)
    requires m > 0
    ensures Covered(hash, k, m, added + {data}, j) <==> Covered(hash, k, m, added, j) || Probes(hash, k, m, data, j)
  {
    if Covered(hash, k, m, added, j) {
      var d :| d in added && Probes(hash, k, m, d, j);
      assert d in added + {data};
    }
    if Probes(hash, k, m, data, j) {
      assert data in added + {data};
    }
  }

  // ---- Bits in bytes ----

  function Mask(i: nat): bv8
    requires i < 8
  {
    1 << i
  }

  predicate BitSet(x: bv8, i: nat)
    requires i < 8
  {
    x & Mask(i) != 0
  }

  lemma MaskValues()
    ensures Mask(0) == 1 && Mask(1) == 2 && Mask(2) == 4 && Mask(3) == 8
    ensures Mask(4) == 16 && Mask(5) == 32 && Mask(6) == 64 && Mask(7) == 128
  {
  }

  lemma OrSetsOneBit(x: bv8, i: nat, j: nat)
    requires i < 8 && j < 8
    ensures BitSet(x | Mask(i), j) <==> i == j || BitSet(x, j)
  {
    MaskValues();
  }

  lemma ZeroHasNoBits(i: nat)
    requires i < 8
    ensures !BitSet(0, i)
  {
  }

  predicate BitAt(bits: seq<bv8>, j: nat)
    requires j < 8 * |bits|
  {
    BitSet(bits[j / 8], j % 8)
  }

  lemma SetBitAt(bits: seq<bv8>, idx: nat, j: nat)
    requires idx < 8 * |bits| && j < 8 * |bits|
    ensures BitAt(bits[idx / 8 := bits[idx / 8] | Mask(idx % 8)], j) <==> j == idx || BitAt(bits, j)
  {
    if j / 8 == idx / 8 {
      OrSetsOneBit(bits[idx / 8], idx % 8, j % 8);
    }
  }

  lemma OneMoreProbe(hash: Hash, i: nat, m: nat, data: string, j: nat)
    requires m > 0
    ensures Probes(hash, i + 1, m, data, j) <==> j == Index(hash(data), i, m) || Probes(hash, i, m, data, j)
  {
    if Probes(hash, i + 1, m, data, j) && j != Index(hash(data), i, m) {
      var n :| 0 <= n < i + 1 && Index(hash(data), n, m) == j;
      assert n < i;
    }
  }

  class BloomFilter {
    const m: nat
    const k: nat
    const hash: Hash
    const bits: array<bv8>
    ghost var added: set<string>

    ghost predicate Shape() {
      m > 0 && m % 8 == 0 && k >= 1 && bits.Length == m / 8
    }

    ghost predicate Valid()
      reads this, bits
    {
      Shape() && forall j :: 0 <= j < m ==> (BitAt(bits[..], j) <==> Covered(hash, k, m, added, j))
    }

    /** rawM and rawK are the rounded optimal sizes; m is aligned to whole bytes and k is at least one. */
    constructor (rawM: nat, rawK: nat, hash: Hash)
      requires rawM > 0
      ensures Valid() && fresh(bits)
      ensures added == {} && this.hash == hash && rawM <= m < rawM + 8 && k == if rawK < 1 then 1 else rawK
    {
      var aligned := if rawM % 8 != 0 then (rawM / 8 + 1) * 8 else rawM;
      m := aligned;
      k := if rawK < 1 then 1 else rawK;
      this.hash := hash;
      bits := new bv8[aligned / 8](_ => 0);
      added := {};
      new;
      forall j | 0 <= j < m
        ensures !BitAt(bits[..], j)
      {
        ZeroHasNoBits(j % 8);
      }
    }

    method Add(data: string)
      requires Valid()
      modifies this`added, bits
      ensures Valid() && added == old(added) + {data}
      ensures forall j :: 0 <= j < m && old(BitAt(bits[..], j)) ==> BitAt(bits[..], j)
    {
      var sum := hash(data);
      ghost var before := bits[..];
      for i := 0 to k
        invariant added == old(added)
        invariant forall j :: 0 <= j < m ==> (BitAt(bits[..], j) <==> BitAt(before, j) || Probes(hash, i, m, data, j))
      {
        var idx := Index(sum, i, m);
        ghost var last := bits[..];
        bits[idx / 8] := bits[idx / 8] | Mask(idx % 8);
        assert bits[..] == last[idx / 8 := last[idx / 8] | Mask(idx % 8)];
        forall j | 0 <= j < m
          ensures BitAt(bits[..], j) <==> BitAt(before, j) || Probes(hash, i + 1, m, data, j)
        {
          SetBitAt(last, idx, j);
          OneMoreProbe(hash, i, m, data, j);
        }
      }
      forall j | 0 <= j < m
        ensures BitAt(bits[..], j) <==> Covered(hash, k, m, added + {data}, j)
      {
        CoveredAdd(hash, k, m, added, data, j);
      }
      added := added + {data};
    }

    method Test(data: string) returns (maybe: bool)
      requires Valid()
      ensures maybe <==> Passes(hash, k, m, added, data)
    {
      var sum := hash(data);
      for i := 0 to k
        invariant forall n :: 0 <= n < i ==> Covered(hash, k, m, added, Index(sum, n, m))
      {
        var idx := Index(sum, i, m);
        assert BitAt(bits[..], idx) == BitSet(bits[idx / 8], idx % 8);
        if bits[idx / 8] & Mask(idx % 8) == 0 {
          assert Probes(hash, k, m, data, idx);
          return false;
        }
      }
      return true;
    }
  }
}
