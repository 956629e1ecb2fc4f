/** The size-class table and the arithmetic that routes a pointer without dividing: sizes,
    slots per span, the rounded-up reciprocal, and the choice of a class for a layout. */
module SizeClasses {
  import opened Arithmetic

  const MIN_ALIGNMENT: nat := 16
  const MAX_SLOTS_PER_SPAN: nat := 4096
  const MAX_SIZE: nat := 131072
  const COUNT: nat := 48
  const TWO_64: nat := 0x1_0000_0000_0000_0000

  // The slot sizes, smallest class first.
  function Size(c: nat): nat
    requires c < COUNT
  {
    match c
    case 0 => 16 case 1 => 32 case 2 => 48 case 3 => 64 case 4 => 80 case 5 => 96 case 6 => 112 case 7 => 128
    case 8 => 160 case 9 => 192 case 10 => 224 case 11 => 256 case 12 => 320 case 13 => 384 case 14 => 448 case 15 => 512
    case 16 => 640 case 17 => 768 case 18 => 896 case 19 => 1024 case 20 => 1280 case 21 => 1536 case 22 => 1792 case 23 => 2048
    case 24 => 2560 case 25 => 3072 case 26 => 3584 case 27 => 4096 case 28 => 5120 case 29 => 6144 case 30 => 7168 case 31 => 8192
    case 32 => 10240 case 33 => 12288 case 34 => 14336 case 35 => 16384 case 36 => 20480 case 37 => 24576 case 38 => 28672 case 39 => 32768
    case 40 => 40960 case 41 => 49152 case 42 => 57344 case 43 => 65536 case 44 => 81920 case 45 => 98304 case 46 => 114688 case _ => 131072
  }

  lemma Table(c: nat)
    requires c < COUNT
    ensures 16 <= Size(c) <= MAX_SIZE && Size(c) % 16 == 0
    ensures c + 1 < COUNT ==> Size(c) < Size(c + 1) <= 2 * Size(c)
  {}

  // The first eight sizes are the multiples of 16 up to 128; after that every doubling is cut into
  // four equal steps.
  lemma TableFormula(c: nat)
    requires c < COUNT
    ensures Size(c) == if c < 8 then 16 * (c + 1) else (5 + (c - 8) % 4) * (32 * Pow2((c - 8) / 4))
  {
    Powers();
  }

  lemma Powers()
    ensures Pow2(0) == 1 && Pow2(1) == 2 && Pow2(2) == 4 && Pow2(3) == 8 && Pow2(4) == 16 && Pow2(5) == 32
    ensures Pow2(6) == 64 && Pow2(7) == 128 && Pow2(8) == 256 && Pow2(9) == 512
  {
    assert Pow2(3) == 8;
    assert Pow2(6) == 64;
  }

  lemma Increasing(c: nat, d: nat)
    requires c <= d < COUNT
    ensures Size(c) <= Size(d) && (c < d ==> Size(c) < Size(d))
    decreases d - c
  {
    Table(c);
    if c < d { Increasing(c + 1, d); }
  }

  function Clamp(x: nat, low: nat, high: nat): nat { if x < low then low else if x > high then high else x }

  function SlotsPerSpan(c: nat): nat
    requires c < COUNT
  {
    Table(c);
    Clamp(MAX_SIZE / Size(c), 8, MAX_SLOTS_PER_SPAN)
  }

  function SpanLength(c: nat): nat
    requires c < COUNT
  {
    Size(c) * SlotsPerSpan(c)
  }

  // A span holds 8 to 4096 slots and is at most a megabyte, so slot counts and indices fit 16 bits.
  lemma SpanBounds(c: nat)
    requires c < COUNT
    ensures 8 <= SlotsPerSpan(c) <= MAX_SLOTS_PER_SPAN
    ensures 65536 <= SpanLength(c) <= 0x10_0000
  {
    Table(c);
    LengthBounds(Size(c), MAX_SIZE / Size(c));
  }

  lemma LengthBounds(size: nat, quotient: nat)
    requires 16 <= size <= MAX_SIZE && quotient == MAX_SIZE / size
    ensures 65536 <= size * Clamp(quotient, 8, MAX_SLOTS_PER_SPAN) <= 0x10_0000
  {
    assert size * quotient <= MAX_SIZE < size * quotient + size;
    if quotient < 8 {
      Times(size, quotient, 8);
    } else if quotient > MAX_SLOTS_PER_SPAN {
      Times(size, MAX_SLOTS_PER_SPAN, quotient);
    } else {
      Times(size, 8, quotient);
    }
  }

  // A span takes as many slots as fit in 128 KiB, but at least 8 and at most 4096.
  lemma SlotsFill(c: nat)
    requires c < COUNT
    ensures var n := SlotsPerSpan(c);
            && (n < 4096 ==> 131072 < Size(c) * (n + 1)) && (n > 8 ==> Size(c) * n <= 131072) && 8 <= n <= 4096
  {
    Table(c);
    SlotsFillAt(Size(c), MAX_SIZE / Size(c));
  }

  lemma SlotsFillAt(size: nat, quotient: nat)
    requires 16 <= size <= MAX_SIZE && quotient == MAX_SIZE / size
    ensures var n := Clamp(quotient, 8, MAX_SLOTS_PER_SPAN);
            (n < 4096 ==> 131072 < size * (n + 1)) && (n > 8 ==> size * n <= 131072)
  {
    var n := Clamp(quotient, 8, MAX_SLOTS_PER_SPAN);
    assert size * quotient <= MAX_SIZE < size * quotient + size == size * (quotient + 1);
    if quotient <= n { Times(size, quotient + 1, n + 1); }
    if n <= quotient { Times(size, n, quotient); }
  }

  // ---------------------------------------------------------------- the reciprocal

  // 2^64 / d, rounded up.
  function Reciprocal(d: nat): (r: nat)
    requires d > 0
  {
    (TWO_64 + d - 1) / d
  }

  // What rounding up adds to d times the reciprocal.
  function ReciprocalError(d: nat): (e: nat)
    requires d > 0
    ensures e < d
  {
    var m := TWO_64 + d - 1;
    assert m == d * (m / d) + m % d;
    d * Reciprocal(d) - TWO_64
  }

  function SlotIndexRaw(d: nat, offset: nat): nat
    requires d > 0
  {
    offset * Reciprocal(d) / TWO_64
  }

  // Multiplying by the reciprocal and keeping the high half divides exactly, as long as the
  // offset times the rounding error stays below 2^64.
  lemma ReciprocalDivides(d: nat, offset: nat)
    requires d > 0 && offset * ReciprocalError(d) < TWO_64
    ensures SlotIndexRaw(d, offset) == offset / d
  {
    var r, e := Reciprocal(d), ReciprocalError(d);
    var q, rem := offset / d, offset % d;
    assert offset == q * d + rem;
    calc {
      d * (offset * r);
      offset * (d * r);
      offset * (TWO_64 + e);
      (q * d + rem) * TWO_64 + offset * e;
      d * (q * TWO_64) + rem * TWO_64 + offset * e;
    }
    Between(d, offset * r, q, rem, offset * e);
  }

  lemma Between(d: nat, product: nat, q: nat, rem: nat, slack: nat)
    requires d > 0 && rem < d && slack < TWO_64
    requires d * product == d * (q * TWO_64) + rem * TWO_64 + slack
    ensures product / TWO_64 == q
  {
    CancelFactor(d, q * TWO_64, product);
    assert d * (q * TWO_64 + TWO_64) == d * (q * TWO_64) + d * TWO_64;
    Times(TWO_64, rem + 1, d);
    CancelStrictly(d, product, q * TWO_64 + TWO_64);
  }

  lemma CancelFactor(d: nat, a: nat, b: nat)
    requires d > 0 && d * a <= d * b
    ensures a <= b
  {
    if a > b { Times(d, b + 1, a); }
  }

  lemma CancelStrictly(d: nat, a: nat, b: nat)
    requires d > 0 && d * a < d * b
    ensures a < b
  {
    if a >= b { Times(d, b, a); }
  }

  // For the table's own sizes the condition always holds, the reciprocal fits 64 bits, and the
  // result fits the 16-bit slot index.
  lemma SlotIndexExact(c: nat, offset: nat)
    requires c < COUNT && offset < SpanLength(c)
    ensures Reciprocal(Size(c)) < TWO_64 && SlotIndexRaw(Size(c), offset) == offset / Size(c) < SlotsPerSpan(c)
  {
    Table(c);
    SpanBounds(c);
    var size := Size(c);
    Product(offset, ReciprocalError(size));
    ReciprocalDivides(size, offset);
    QuotientBelow(offset, size, SlotsPerSpan(c));
    RoundedBelow(size);
  }

  lemma RoundedBelow(d: nat)
    requires d >= 2
    ensures Reciprocal(d) < TWO_64
  {}

  lemma Product(offset: nat, error: nat)
    requires offset < 0x10_0000 && error <= MAX_SIZE
    ensures offset * error < 0x20_0000_0000
  {
    Times(offset, error, MAX_SIZE);
  }

  // ---------------------------------------------------------------- choosing a class

  // The smallest power of two that is at least n.
  function NextPowerOfTwo(n: nat): (p: nat)
    ensures p >= 1 && p >= n && (p == 1 || p < 2 * n)
  {
    if n <= 1 then 1 else 2 * NextPowerOfTwo((n + 1) / 2)
  }

  predicate IsPowerOfTwo(p: nat) {
    p == 1 || (p > 1 && p % 2 == 0 && IsPowerOfTwo(p / 2))
  }

  lemma {:induction false} NextIsPower(n: nat)
    ensures IsPowerOfTwo(NextPowerOfTwo(n))
  {
    if n > 1 { NextIsPower((n + 1) / 2); }
  }

  // The smaller of two powers of two divides the larger.
  lemma {:induction false} PowersDivide(p: nat, q: nat)
    requires IsPowerOfTwo(p) && IsPowerOfTwo(q) && p <= q
    ensures q % p == 0
  {
    if p > 1 {
      PowersDivide(p / 2, q / 2);
      var k := q / 2 / (p / 2);
      assert q / 2 == (p / 2) * k;
      assert q == p * k;
      Multiple(p, k);
    }
  }

  function Div(x: nat, d: nat): nat
    requires d > 0
  {
    x / d
  }

  // A divisor of a divisor divides.
  lemma Transitive(a: nat, b: nat, x: nat)
    requires a > 0 && b > 0 && b % a == 0 && x % b == 0
    ensures x % a == 0
  {
    assert x == a * ((b / a) * (x / b)) by {
      assert b == a * (b / a) && x == b * (x / b);
    }
    Multiple(a, (b / a) * (x / b));
  }

  // Bucket b covers request sizes above 16 b and up to 16 b + 16.
  const BUCKETS: nat := MAX_SIZE / MIN_ALIGNMENT

  ghost predicate Tightest(c: nat, bucket: nat) {
    c < COUNT && Size(c) > 16 * bucket && forall d :: 0 <= d < c ==> Size(d) <= 16 * bucket
  }

  method BuildLookup() returns (table: array<nat>)
    ensures fresh(table) && table.Length == BUCKETS
    ensures forall b :: 0 <= b < BUCKETS ==> Tightest(table[b], b)
  {
    table := new nat[BUCKETS](_ => 0);
    var c, bucket := 0, 0;
    while bucket < BUCKETS
      invariant 0 <= bucket <= BUCKETS && c < COUNT
      invariant forall b :: 0 <= b < bucket ==> Tightest(table[b], b)
      invariant forall d :: 0 <= d < c ==> Size(d) <= 16 * bucket
    {
      while Size(c) <= bucket * MIN_ALIGNMENT
        invariant c < COUNT
        invariant forall d :: 0 <= d < c ==> Size(d) <= 16 * bucket
        decreases COUNT - c
      {
        c := c + 1;
      }
      table[bucket] := c;
      bucket := bucket + 1;
    }
  }

  datatype Class = TooLarge | Class(index: nat)

  function Max(a: nat, b: nat): nat { if a > b then a else b }

  // Every class is a multiple of 16 and the largest is a power of two, so the alignment scan
  // stays inside the table and finds the tightest class that fits and is aligned as asked.
  method FromLayout(table: array<nat>, size: nat, align: nat) returns (class_: Class)
    requires table.Length == BUCKETS && forall b :: 0 <= b < BUCKETS ==> Tightest(table[b], b)
    ensures class_.TooLarge? <==> size > MAX_SIZE || NextPowerOfTwo(align) > MAX_SIZE
    ensures class_.Class? ==>
      var c := class_.index;
      && c < COUNT && Size(c) >= size && Size(c) % NextPowerOfTwo(align) == 0
      && forall d :: 0 <= d < c ==> Size(d) < size || Size(d) % NextPowerOfTwo(align) != 0
  {
    var effectiveAlign := NextPowerOfTwo(align);
    var effectiveSize := Max(Max(size, effectiveAlign), MIN_ALIGNMENT);
    if effectiveSize > MAX_SIZE {
      return TooLarge;
    }
    var bucket := (effectiveSize - 1) / MIN_ALIGNMENT;
    var c := table[bucket];
    FirstFits(size, effectiveAlign, c);
    if effectiveAlign > MIN_ALIGNMENT {
      LargestIsAligned(align);
      c := NextAligned(size, effectiveAlign, c);
    } else {
      SmallAlign(align, c);
    }
    return Class(c);
  }

  // The scan for the first class from `from` on that the alignment divides.
  method NextAligned(size: nat, align: nat, from: nat) returns (c: nat)
    requires from < COUNT && Size(from) >= size && align > 0 && Size(COUNT - 1) % align == 0
    requires forall d :: 0 <= d < from ==> Size(d) < size || Size(d) % align != 0
    ensures c < COUNT && Size(c) >= size && Size(c) % align == 0
    ensures forall d :: 0 <= d < c ==> Size(d) < size || Size(d) % align != 0
  {
    c := from;
    while Size(c) % align != 0
      invariant c < COUNT && Size(c) >= size
      invariant forall d :: 0 <= d < c ==> Size(d) < size || Size(d) % align != 0
      decreases COUNT - c
    {
      if c < COUNT - 1 { Increasing(c, c + 1); }
      c := c + 1;
    }
  }

  // Below the looked-up class nothing fits the request and its alignment at once.
  lemma FirstFits(size: nat, align: nat, c: nat)
    requires align > 0 && Max(Max(size, align), MIN_ALIGNMENT) <= MAX_SIZE
    requires Tightest(c, (Max(Max(size, align), MIN_ALIGNMENT) - 1) / MIN_ALIGNMENT)
    ensures Size(c) >= size
    ensures forall d :: 0 <= d < c ==> Size(d) < size || Size(d) % align != 0
  {
    Table(c);
    var effective := Max(Max(size, align), MIN_ALIGNMENT);
    forall d | 0 <= d < c ensures Size(d) < size || Size(d) % align != 0 {
      TooSmall(d, size, align, effective);
    }
    BucketCovers(effective, Size(c));
  }

  lemma BucketCovers(effective: nat, slot: nat)
    requires effective > 0 && slot > 16 * ((effective - 1) / 16) && slot % 16 == 0
    ensures slot >= effective
  {}

  lemma TooSmall(d: nat, size: nat, align: nat, effective: nat)
    requires d < COUNT && align > 0 && effective == Max(Max(size, align), MIN_ALIGNMENT)
    requires Size(d) <= 16 * ((effective - 1) / MIN_ALIGNMENT)
    ensures Size(d) < size || Size(d) % align != 0
  {
    Table(d);
    BelowAlign(Size(d), size, align, effective);
  }

  lemma BelowAlign(slot: nat, size: nat, align: nat, effective: nat)
    requires 16 <= slot && align > 0 && effective == Max(Max(size, align), MIN_ALIGNMENT)
    requires slot <= 16 * ((effective - 1) / MIN_ALIGNMENT)
    ensures slot < size || slot % align != 0
  {
    assert slot < effective;
    if slot < align { DivModUnique(slot, align, 0, slot); }
  }

  lemma LargestIsAligned(align: nat)
    requires NextPowerOfTwo(align) <= MAX_SIZE
    ensures Size(COUNT - 1) % NextPowerOfTwo(align) == 0
  {
    NextIsPower(align);
    LargestIsPower();
    PowersDivide(NextPowerOfTwo(align), MAX_SIZE);
  }

  lemma LargestIsPower()
    ensures IsPowerOfTwo(MAX_SIZE) && IsPowerOfTwo(16)
  {
    assert IsPowerOfTwo(2) && IsPowerOfTwo(16);
    assert IsPowerOfTwo(256);
    assert IsPowerOfTwo(4096);
    assert IsPowerOfTwo(65536);
  }

  lemma SmallAlign(align: nat, c: nat)
    requires NextPowerOfTwo(align) <= MIN_ALIGNMENT && c < COUNT
    ensures Size(c) % NextPowerOfTwo(align) == 0
  {
    Table(c);
    NextIsPower(align);
    LargestIsPower();
    PowersDivide(NextPowerOfTwo(align), 16);
    Transitive(NextPowerOfTwo(align), 16, Size(c));
  }
}
