/** Powers of two, quotients and counters modulo 2^32. */
module Arithmetic {
  const WORD: nat := 0x1_0000_0000

  function Pow2(k: nat): (p: nat)
    ensures p > 0
  {
    if k == 0 then 1 else 2 * Pow2(k - 1)
  }

  lemma Times(a: nat, b: nat, c: nat)
    requires b <= c
    ensures a * b <= a * c
  {}

  lemma DivModUnique(x: nat, p: nat, q: nat, r: nat)
    requires p > 0 && x == p * q + r && r < p
    ensures x / p == q && x % p == r
  {
    assert x == p * (x / p) + x % p;
    if q < x / p { Times(p, q + 1, x / p); }
    if q > x / p { Times(p, x / p + 1, q); }
  }

  lemma Multiple(p: nat, k: nat)
    requires p > 0
    ensures p * k % p == 0
  {
    DivModUnique(p * k, p, k, 0);
  }

  lemma LeastMultiple(raw: nat, alignment: nat, q: nat, k: nat)
    requires alignment * q < raw + alignment && raw <= alignment * k
    ensures q * alignment <= alignment * k
  {
    assert alignment * (k + 1) == alignment * k + alignment;
    if k < q { Times(alignment, k + 1, q); }
  }

  lemma QuotientBelow(x: nat, d: nat, n: nat)
    requires d > 0 && x < d * n
    ensures x / d < n
  {
    if x / d >= n { Times(d, n, x / d); }
  }

  // A count kept modulo 2^32 goes up and down as the count does.
  lemma LevelWraps(level: nat)
    ensures (level % WORD + 1) % WORD == (level + 1) % WORD
    ensures level > 0 ==> (level % WORD + WORD - 1) % WORD == (level - 1) % WORD
    ensures level % WORD > 1 ==> (level - 1) % WORD == level % WORD - 1
    ensures level > 0 && (level - 1) % WORD == 0 ==> level % WORD == 1
    ensures level % WORD == level - WORD * (level / WORD)
    ensures 1 % WORD == 1
  {}
}
