/**
 * resourceSet (tinyrbac.go:44): an unsigned 64-bit word whose bit j stands
 * for the resource with index j. The word is modelled bit by bit, element j
 * of the sequence being bit j; Value gives the unsigned number the bits
 * spell, so that the constants and test vectors of the source can be stated.
 */
module ResourceSets {
  import opened Constants

  type ResourceSet = w: seq<bool> | |w| == MaxResources witness seq(64, i => false)

  /** n copies of the bit b. */
  function Filled(b: bool, n: nat): (w: seq<bool>)
    ensures |w| == n
    ensures forall i | 0 <= i < n :: w[i] == b
  {
    seq(n, _ => b)
  }

  /** The zero word. */
  const Zero: ResourceSet := Filled(false, MaxResources)

  /** allResourceAccess: every bit of the word set (math.MaxUint64). */
  const AllResourceAccess: ResourceSet := Filled(true, MaxResources)

  /** `1 << j`: the word whose only set bit is bit j, the number 2^j. */
  function Bit(j: nat): (b: ResourceSet)
    requires j < MaxResources
    ensures forall i | 0 <= i < MaxResources :: b[i] <==> i == j
    ensures Value(b) == Pow2(j)
  {
    ValueOfBit(MaxResources, j);
    seq(MaxResources, i => i == j)
  }

  /** `1 << j` is the number 2^j: a single bit, valid for every index below maxResources. */
  lemma BitValue(j: nat)
    requires j < MaxResources
    ensures Value(Bit(j)) == Pow2(j) < Pow2(MaxResources)
  {
    Pow2Monotone(j, MaxResources);
  }

  lemma {:induction false} Pow2Monotone(a: nat, b: nat)
    requires a < b
    ensures Pow2(a) < Pow2(b)
  {
    if a < b - 1 { Pow2Monotone(a, b - 1); }
  }

  /**
   * `a | b`: a bit is set when it is set in either word. As numbers,
   * (a | b) + (a & b) == a + b: the OR counts the common bits once.
   */
  function Or(a: ResourceSet, b: ResourceSet): (r: ResourceSet)
    ensures forall i | 0 <= i < MaxResources :: r[i] <==> a[i] || b[i]
    ensures Value(r) + Value(And(a, b)) == Value(a) + Value(b)
  {
    OrAndSum(a, b);
    OrBits(a, b)
  }

  /** a & b */
  function And(a: ResourceSet, b: ResourceSet): ResourceSet {
    AndBits(a, b)
  }

  /** Bitwise OR of two words of the same width. */
  function OrBits(a: seq<bool>, b: seq<bool>): (r: seq<bool>)
    requires |a| == |b|
    ensures |r| == |a|
  {
    seq(|a|, i requires 0 <= i < |a| => a[i] || b[i])
  }

  /** Bitwise AND of two words of the same width. */
  function AndBits(a: seq<bool>, b: seq<bool>): (r: seq<bool>)
    requires |a| == |b|
    ensures |r| == |a|
  {
    seq(|a|, i requires 0 <= i < |a| => a[i] && b[i])
  }

  /** x | y + x & y == x + y, bit by bit from the least significant end. */
  lemma {:induction false} OrAndSum(a: seq<bool>, b: seq<bool>)
    requires |a| == |b|
    ensures Value(OrBits(a, b)) + Value(AndBits(a, b)) == Value(a) + Value(b)
  {
    if |a| > 0 {
      OrAndSum(a[1..], b[1..]);
      assert OrBits(a, b)[1..] == OrBits(a[1..], b[1..]);
      assert AndBits(a, b)[1..] == AndBits(a[1..], b[1..]);
    }
  }

  /**
   * `w |= 1 << j` adds 2^j to the number exactly when bit j was clear:
   * how the test's words 3 (bits 0 and 1) and 4 (bit 2) come about.
   */
  lemma OrBitValue(w: ResourceSet, j: nat)
    requires j < MaxResources
    ensures Value(Or(w, Bit(j))) == Value(w) + (if w[j] then 0 else Pow2(j))
  {
    if w[j] {
      assert And(w, Bit(j)) == Bit(j);
    } else {
      assert And(w, Bit(j)) == seq(MaxResources, _ => false);
      ValueOfZeros(MaxResources);
    }
  }

  /** The source's membership test `w & (1 << j) != 0`: it reads exactly bit j of the word. */
  function Has(w: ResourceSet, j: nat): (b: bool)
    requires j < MaxResources
    ensures b <==> w[j]
  {
    AndBit(w, j);
    Value(And(w, Bit(j))) != 0
  }

  function Pow2(n: nat): (p: nat)
    ensures p >= 1
  {
    if n == 0 then 1 else 2 * Pow2(n - 1)
  }

  /** The unsigned number spelled by the bits, bit 0 least significant. */
  function Value(w: seq<bool>): nat {
    if w == [] then 0 else (if w[0] then 1 else 0) + 2 * Value(w[1..])
  }

  /** n bits spell a number below 2^n: a 64-bit word fits in uint64. */
  lemma {:induction false} ValueBound(w: seq<bool>)
    ensures Value(w) < Pow2(|w|)
  {
    if w != [] { ValueBound(w[1..]); }
  }

  lemma {:induction false} ValueOfBit(n: nat, j: nat)
    requires j < n
    ensures Value(seq(n, i => i == j)) == Pow2(j)
  {
    var w := seq(n, i => i == j);
    if j == 0 {
      ValueOfZeros(n - 1);
      assert w[1..] == seq(n - 1, _ => false);
    } else {
      ValueOfBit(n - 1, j - 1);
      assert w[1..] == seq(n - 1, i => i == j - 1);
    }
  }

  lemma {:induction false} ValueOfZeros(n: nat)
    ensures Value(seq(n, _ => false)) == 0
  {
    if n > 0 {
      ValueOfZeros(n - 1);
      assert seq(n, _ => false)[1..] == seq(n - 1, _ => false);
    }
  }

  lemma {:induction false} ValueOfOnes(n: nat)
    ensures Value(seq(n, _ => true)) == Pow2(n) - 1
  {
    if n > 0 {
      ValueOfOnes(n - 1);
      assert seq(n, _ => true)[1..] == seq(n - 1, _ => true);
    }
  }

  /** High bits that are all clear add nothing to the value. */
  lemma {:induction false} ValueOfLowBits(w: seq<bool>, n: nat)
    requires n <= |w|
    requires forall i | n <= i < |w| :: !w[i]
    ensures Value(w) == Value(w[..n])
    decreases n
  {
    if n == 0 {
      ValueOfZeros(|w|);
      assert w == seq(|w|, _ => false);
    } else {
      ValueOfLowBits(w[1..], n - 1);
      assert w[..n][1..] == w[1..][..n - 1];
    }
  }

  /**
   * The word is exactly 64 bits wide (maxResources equals the width of
   * resourceSet), every bit of allResourceAccess is set, its value is
   * math.MaxUint64, and the zero word has value 0.
   */
  lemma AllResourceAccessIsMaxUint64()
    ensures forall j | 0 <= j < MaxResources :: Has(AllResourceAccess, j)
    ensures Value(AllResourceAccess) == 0xFFFF_FFFF_FFFF_FFFF
    ensures Value(Zero) == 0
  {
    ValueOfOnes(MaxResources);
    ValueOfZeros(MaxResources);
    assert Pow2(MaxResources) == 0x1_0000_0000_0000_0000 by { Pow2Sixty4(); }
  }

  lemma Pow2ThirtyTwo() ensures Pow2(32) == 0x1_0000_0000 {
    Pow2Add(1, 1);
    Pow2Add(2, 2);
    Pow2Add(4, 4);
    Pow2Add(8, 8);
    Pow2Add(16, 16);
  }

  lemma Pow2Sixty4() ensures Pow2(64) == 0x1_0000_0000_0000_0000 {
    Pow2ThirtyTwo();
    Pow2Add(32, 32);
  }

  lemma {:induction false} Pow2Add(a: nat, b: nat) ensures Pow2(a + b) == Pow2(a) * Pow2(b) {
    if b > 0 { Pow2Add(a, b - 1); }
  }

  /** Masking with `1 << j` leaves a non-zero number exactly when bit j is set. */
  lemma AndBit(w: ResourceSet, j: nat)
    requires j < MaxResources
    ensures Value(And(w, Bit(j))) != 0 <==> w[j]
  {
    if w[j] {
      assert And(w, Bit(j)) == Bit(j);
      ValueOfBit(MaxResources, j);
    } else {
      assert And(w, Bit(j)) == seq(MaxResources, _ => false);
      ValueOfZeros(MaxResources);
    }
  }

  /** `w |= 1 << k` sets bit k and leaves every other bit as it was. */
  lemma HasOr(w: ResourceSet, k: nat, j: nat)
    requires k < MaxResources && j < MaxResources
    ensures Has(Or(w, Bit(k)), j) <==> Has(w, j) || j == k
  {
  }

  /** OR-ing into the all-ones word leaves it all-ones, from either side. */
  lemma OrAbsorbs(w: ResourceSet)
    ensures Or(w, AllResourceAccess) == AllResourceAccess
    ensures Or(AllResourceAccess, w) == AllResourceAccess
  {
  }
}
