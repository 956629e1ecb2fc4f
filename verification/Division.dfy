/** 128-bit division by shifting and subtracting. The running remainder can need 129 bits; the
    program keeps it modulo 2^128 and remembers the bit that was shifted out. */
module Division {
  import opened Arithmetic

  const BITS: nat := 128
  const TWO_128: nat := 0x1_0000_0000_0000_0000_0000_0000_0000_0000
  const HALF: nat := 0x8000_0000_0000_0000_0000_0000_0000_0000

  datatype Result = Trap | Divided(quotient: nat, remainder: nat)

  // The bits of n up to its highest one bit.
  function BitLength(n: nat): (k: nat)
    ensures n < Pow2(k)
  {
    if n == 0 then 0 else 1 + BitLength(n / 2)
  }

  lemma {:induction false} BitLengthFits(n: nat, k: nat)
    requires n < Pow2(k)
    ensures BitLength(n) <= k
  {
    if n > 0 { BitLengthFits(n / 2, k - 1); }
  }

  function Bit(n: nat, i: nat): (b: nat)
    ensures b <= 1
  {
    n / Pow2(i) % 2
  }

  // Shifting by one bit less uncovers the next bit.
  lemma Uncover(n: nat, i: nat)
    ensures n / Pow2(i) == 2 * (n / Pow2(i + 1)) + Bit(n, i)
  {
    Halves(n, Pow2(i));
  }

  lemma Halves(n: nat, p: nat)
    requires p > 0
    ensures n / (2 * p) == n / p / 2
  {
    var a := n / p;
    assert n == p * a + n % p;
    HalvesOf(n, p, a / 2, a % 2, n % p);
  }

  lemma HalvesOf(n: nat, p: nat, half: nat, odd: nat, rest: nat)
    requires odd <= 1 && rest < p && n == p * (2 * half + odd) + rest
    ensures n / (2 * p) == half
  {
    Regroup(p, half, odd);
    DivModUnique(n, 2 * p, half, p * odd + rest);
  }

  lemma Regroup(p: nat, half: nat, odd: nat)
    requires odd <= 1
    ensures p * (2 * half + odd) == (2 * p) * half + p * odd && p * odd <= p
  {}

  // `wrapping_sub` on 128 bits.
  function WrappingSub(a: nat, b: nat): nat
    requires a < TWO_128 && b < TWO_128
  {
    if a >= b then a - b else a + TWO_128 - b
  }

  // One round on the wrapped remainder does what it would do on the 129-bit one.
  lemma Round(remainder: nat, bit: nat, d: nat)
    requires remainder < d < TWO_128 && bit <= 1
    ensures var full := 2 * remainder + bit;
            var low := full % TWO_128;
            && (remainder / HALF != 0 || low >= d <==> full >= d)
            && full < 2 * d
            && low == 2 * remainder % TWO_128 + bit
            && (full >= d ==> WrappingSub(low, d) == full - d)
            && (full < d ==> low == full)
  {}

  // Or-ing a single bit in.
  function SetBit(n: nat, i: nat): nat { if Bit(n, i) == 1 then n else n + Pow2(i) }

  // After the bits from `i` up: the quotient bits so far, shifted back, and their remainder.
  ghost predicate Upto(n: nat, d: nat, i: nat, quotient: nat, remainder: nat, prefix: nat) {
    remainder < d && quotient == prefix * Pow2(i) && n / Pow2(i) == prefix * d + remainder
  }

  lemma NextBit(n: nat, d: nat, i: nat, quotient: nat, remainder: nat, prefix: nat, more: nat)
    requires d > 0 && Upto(n, d, i + 1, quotient, remainder, prefix)
    requires more == if 2 * remainder + Bit(n, i) >= d then 1 else 0
    ensures SetBit(quotient, i) == quotient + Pow2(i)
    ensures Upto(n, d, i, quotient + more * Pow2(i), 2 * remainder + Bit(n, i) - more * d, 2 * prefix + more)
  {
    Uncover(n, i);
    Distribute(prefix, d, more);
    Combine(prefix, Pow2(i), more);
    BitClear(prefix, Pow2(i));
  }

  lemma Combine(prefix: nat, p: nat, more: nat)
    ensures prefix * (2 * p) + more * p == (2 * prefix + more) * p
  {}

  lemma Distribute(prefix: nat, d: nat, more: nat)
    requires more <= 1
    ensures (2 * prefix + more) * d == 2 * (prefix * d) + more * d
  {}

  lemma BitClear(prefix: nat, p: nat)
    requires p > 0
    ensures prefix * (2 * p) / p % 2 == 0
  {
    Combine(prefix, p, 0);
    DivModUnique(prefix * (2 * p), p, 2 * prefix, 0);
  }

  // Shifts one bit in and subtracts the denominator if the 129-bit value holds it.
  method ShiftSubtract(remainder: nat, bit: nat, d: nat) returns (next: nat, taken: bool)
    requires remainder < d < TWO_128 && bit <= 1
    ensures taken <==> 2 * remainder + bit >= d
    ensures next == 2 * remainder + bit - if taken then d else 0
  {
    Round(remainder, bit, d);
    var shiftedOut := remainder / HALF;
    next := 2 * remainder % TWO_128 + bit;
    taken := shiftedOut != 0 || next >= d;
    if taken {
      next := WrappingSub(next, d);
    }
  }

  // For every numerator and every nonzero denominator the results are quotient and remainder.
  method UnsignedDivision128(numerator: nat, denominator: nat) returns (result: Result)
    requires numerator < TWO_128 && denominator < TWO_128
    ensures result.Trap? <==> denominator == 0
    ensures result.Divided? ==>
      && numerator == result.quotient * denominator + result.remainder && result.remainder < denominator
      && result.quotient == numerator / denominator && result.remainder == numerator % denominator
  {
    if denominator == 0 {
      return Trap;
    }
    var quotient: nat, remainder: nat := 0, 0;
    var i := BitLength(numerator);
    ghost var prefix: nat := 0;
    DivModUnique(numerator, Pow2(i), 0, numerator);
    while i > 0
      invariant Upto(numerator, denominator, i, quotient, remainder, prefix)
    {
      i := i - 1;
      var bit := Bit(numerator, i);
      ghost var more: nat := if 2 * remainder + bit >= denominator then 1 else 0;
      NextBit(numerator, denominator, i, quotient, remainder, prefix, more);
      var taken;
      remainder, taken := ShiftSubtract(remainder, bit, denominator);
      if taken {
        quotient := SetBit(quotient, i);
      }
      prefix := 2 * prefix + more;
    }
    Finish(numerator, denominator, quotient, remainder, prefix);
    result := Divided(quotient, remainder);
  }

  lemma Finish(n: nat, d: nat, quotient: nat, remainder: nat, prefix: nat)
    requires d > 0 && Upto(n, d, 0, quotient, remainder, prefix)
    ensures n == quotient * d + remainder && remainder < d && quotient == n / d && remainder == n % d
  {
    assert Pow2(0) == 1 && n / 1 == n && prefix * 1 == prefix;
    DivModUnique(n, d, quotient, remainder);
  }
}
