/** Symbol lookup through the two ELF hash tables, against a plain scan of the symbols. */
module HashTables {
  import opened Arithmetic
  import opened Wrappers

  newtype Byte = b: int | 0 <= b < 256

  type Name = seq<Byte>

  const BLOOM_BITS: nat := 64

  // ---------------------------------------------------------------- hash functions

  const HIGH_NIBBLE: bv32 := 0xf000_0000

  function Fold(shifted: bv32): bv32 {
    var highNibble := shifted & HIGH_NIBBLE;
    (shifted ^ (highNibble >> 24)) & !highNibble
  }

  function ElfStep(hash: bv32, byte: bv32): bv32 { Fold((hash << 4) + byte) }

  // The loop body as the "Hash Table" section of System V gABI chapter 5 gives it.
  function GabiFold(h: bv32): bv32 {
    var g := h & HIGH_NIBBLE;
    (if g != 0 then h ^ (g >> 24) else h) & !g
  }

  function GabiStep(hash: bv32, byte: bv32): bv32 { GabiFold((hash << 4) + byte) }

  function ElfHashFrom(hash: bv32, name: Name): bv32
    decreases |name|
  {
    if name == [] then hash else ElfHashFrom(ElfStep(hash, name[0] as bv32), name[1..])
  }

  function GabiHashFrom(hash: bv32, name: Name): bv32
    decreases |name|
  {
    if name == [] then hash else GabiHashFrom(GabiStep(hash, name[0] as bv32), name[1..])
  }

  // The branch-free step is the standard's step.
  lemma FoldAgrees(h: bv32)
    ensures Fold(h) == GabiFold(h)
  {
    var g := h & HIGH_NIBBLE;
    if g == 0 { NothingToFold(h, g); }
  }

  lemma NothingToFold(h: bv32, g: bv32)
    requires g == 0
    ensures h ^ (g >> 24) == h
  {}

  lemma {:induction false} ElfHashAgrees(hash: bv32, name: Name)
    ensures ElfHashFrom(hash, name) == GabiHashFrom(hash, name)
    decreases |name|
  {
    if name != [] {
      FoldAgrees((hash << 4) + name[0] as bv32);
      ElfHashAgrees(ElfStep(hash, name[0] as bv32), name[1..]);
    }
  }

  // The top four bits are folded back in and cleared, so every hash fits 28 bits.
  lemma HighNibbleCleared(h: bv32)
    ensures Fold(h) & HIGH_NIBBLE == 0
  {}

  lemma {:induction false} ElfHashFits(hash: bv32, name: Name)
    requires hash & HIGH_NIBBLE == 0
    ensures ElfHashFrom(hash, name) & HIGH_NIBBLE == 0
    decreases |name|
  {
    if name != [] {
      HighNibbleCleared((hash << 4) + name[0] as bv32);
      ElfHashFits(ElfStep(hash, name[0] as bv32), name[1..]);
    }
  }

  function ElfHash(name: Name): nat { ElfHashFrom(0, name) as nat }

  function GabiHash(name: Name): nat { GabiHashFrom(0, name) as nat }

  function GnuHashFrom(hash: nat, name: Name): (h: nat)
    requires hash < WORD
    ensures h < WORD
    decreases |name|
  {
    if name == [] then hash else GnuHashFrom((hash * 33 % WORD + name[0] as nat) % WORD, name[1..])
  }

  function GnuHash(name: Name): (h: nat)
    ensures h < WORD
  {
    GnuHashFrom(5381, name)
  }

  function Power(base: nat, k: nat): (p: nat)
    ensures base > 0 ==> p > 0
  {
    if k == 0 then 1 else base * Power(base, k - 1)
  }

  // The bytes of the name as the digits of a number to the base 33, the first one highest.
  function Digits(name: Name): nat {
    if name == [] then 0 else name[0] as nat * Power(33, |name| - 1) + Digits(name[1..])
  }

  // The hash a linker writes into a GNU table: that number after the seed, modulo 2^32.
  function LinkerHash(name: Name): nat {
    (5381 * Power(33, |name|) + Digits(name)) % 0x1_0000_0000
  }

  lemma ModTimes(x: nat, p: nat, y: nat)
    ensures ((x % WORD) * p + y) % WORD == (x * p + y) % WORD
  {
    var q := x / WORD;
    assert x == WORD * q + x % WORD;
    TimesApart(q, x % WORD, p);
    assert x * p + y == WORD * (q * p) + ((x % WORD) * p + y);
    ModShifted((x % WORD) * p + y, q * p);
  }

  lemma TimesApart(q: nat, r: nat, p: nat)
    ensures (WORD * q + r) * p == WORD * (q * p) + r * p
  {}

  lemma ModShifted(z: nat, k: nat)
    ensures (WORD * k + z) % WORD == z % WORD
  {
    DivModUnique(WORD * k + z, WORD, k + z / WORD, z % WORD);
  }

  // The loop, started from any hash, computes that number modulo 2^32.
  lemma {:induction false} GnuHashIsDigits(hash: nat, name: Name)
    requires hash < WORD
    ensures GnuHashFrom(hash, name) == (hash * Power(33, |name|) + Digits(name)) % WORD
    decreases |name|
  {
    if name != [] {
      GnuHashIsDigits((hash * 33 % WORD + name[0] as nat) % WORD, name[1..]);
      NextDigit(hash, name[0] as nat, Power(33, |name| - 1), Digits(name[1..]));
    }
  }

  lemma NextDigit(hash: nat, b: nat, p: nat, rest: nat)
    ensures ((hash * 33 % WORD + b) % WORD * p + rest) % WORD == (hash * (33 * p) + (b * p + rest)) % WORD
  {
    ModTimes(hash * 33, 1, b);
    ModTimes(hash * 33 + b, p, rest);
    Expand(hash, b, p, rest);
  }

  lemma Expand(hash: nat, b: nat, p: nat, rest: nat)
    ensures (hash * 33 + b) * p + rest == hash * (33 * p) + (b * p + rest)
  {}

  lemma GnuHashAgrees(name: Name)
    ensures GnuHash(name) == LinkerHash(name)
  {
    GnuHashIsDigits(5381, name);
  }

  lemma {:induction false} PowerOfTwo(k: nat)
    ensures Power(2, k) == Pow2(k)
  {
    if k > 0 { PowerOfTwo(k - 1); }
  }

  // ---------------------------------------------------------------- the System V table

  datatype SysV = SysV(buckets: seq<nat>, chain: seq<nat>)

  // The list of a bucket: linked through the chain from the bucket's entry to index zero.
  ghost predicate Linked(t: SysV, entry: nat, list: seq<nat>)
    decreases |list|
  {
    if list == [] then entry == 0
    else 0 < entry == list[0] < |t.chain| && Linked(t, t.chain[entry], list[1..])
  }

  // Every bucket's list ends, and a named symbol is listed in the bucket of its hash.
  ghost predicate SysVOk(t: SysV, lists: seq<seq<nat>>, names: seq<Name>) {
    && |t.buckets| > 0 && |lists| == |t.buckets| && |names| == |t.chain|
    && forall b :: 0 <= b < |lists| ==> Linked(t, t.buckets[b], lists[b])
  }

  ghost predicate SysVHashed(t: SysV, lists: seq<seq<nat>>, names: seq<Name>, i: nat) {
    |t.buckets| > 0 && |lists| == |t.buckets| && i < |names| && i in lists[GabiHash(names[i]) % |t.buckets|]
  }

  // The first entry of the list that has the name.
  function FirstNamed(list: seq<nat>, names: seq<Name>, name: Name): (r: Option<nat>)
    requires forall i :: i in list ==> i < |names|
    ensures r.Some? ==> r.value in list && names[r.value] == name
    ensures r.None? ==> forall i :: i in list ==> names[i] != name
  {
    if list == [] then None
    else
      assert list[0] in list && forall i :: i in list[1..] ==> i in list;
      if names[list[0]] == name then Some(list[0]) else FirstNamed(list[1..], names, name)
  }

  lemma {:induction false} LinkedBounds(t: SysV, entry: nat, list: seq<nat>)
    requires Linked(t, entry, list)
    ensures forall i :: i in list ==> 0 < i < |t.chain|
    decreases |list|
  {
    if list != [] {
      assert list == [list[0]] + list[1..];
      LinkedBounds(t, t.chain[entry], list[1..]);
    }
  }

  // On a table whose lists end, the lookup ends with what a scan of the bucket's list finds.
  method LookupSysV(t: SysV, names: seq<Name>, name: Name, ghost lists: seq<seq<nat>>) returns (r: Option<nat>)
    requires SysVOk(t, lists, names)
    ensures var list := lists[GabiHash(name) % |t.buckets|];
            (forall i :: i in list ==> i < |names|) && r == FirstNamed(list, names, name)
    ensures (exists i: nat :: SysVHashed(t, lists, names, i) && names[i] == name) ==> r.Some? && names[r.value] == name
  {
    ElfHashAgrees(0, name);
    var bucket := ElfHash(name) % |t.buckets|;
    ghost var list := lists[bucket];
    LinkedBounds(t, t.buckets[bucket], list);
    var index := t.buckets[bucket];
    ghost var rest := list;
    while index != 0
      invariant Linked(t, index, rest) && (forall i :: i in rest ==> i in list)
      invariant FirstNamed(rest, names, name) == FirstNamed(list, names, name)
      decreases |rest|
    {
      if names[index] == name {
        return Some(index);
      }
      assert rest == [rest[0]] + rest[1..];
      index := t.chain[index];
      rest := rest[1..];
    }
    return None;
  }

  // The chain runs beside the symbol table.
  method SymbolCountSysV(t: SysV, names: seq<Name>, ghost lists: seq<seq<nat>>) returns (n: nat)
    requires SysVOk(t, lists, names)
    ensures n == |names|
  {
    n := |t.chain|;
  }

  // ---------------------------------------------------------------- the GNU table

  /** `bloom` words are the sets of their one bits; `chain` holds one hash per symbol from
      `offset` on, with its lowest bit replaced by the stop bit. */
  datatype Gnu = Gnu(offset: nat, shift: nat, bloom: seq<set<nat>>, buckets: seq<nat>, chain: seq<nat>)

  function BloomMask(hash: nat, shift: nat): set<nat> {
    {hash % BLOOM_BITS, hash / Pow2(shift) % BLOOM_BITS}
  }

  function BloomWord(t: Gnu, hash: nat): set<nat>
    requires |t.bloom| > 0
  {
    t.bloom[hash / BLOOM_BITS % |t.bloom|]
  }

  function BucketOf(t: Gnu, name: Name): nat
    requires |t.buckets| > 0
  {
    LinkerHash(name) % |t.buckets|
  }

  // The two bits of a hash in the bloom filter, of 64-bit words.
  ghost predicate Filtered(t: Gnu, hash: nat)
    requires |t.bloom| > 0
  {
    var word := t.bloom[hash / 64 % |t.bloom|];
    hash % 64 in word && hash / Power(2, t.shift) % 64 in word
  }

  // Symbols from the offset on are hashed: grouped by bucket in order, each with its hash in the
  // chain and its bits in the bloom filter; a stop bit ends each group, a bucket names its first.
  ghost predicate GnuOk(t: Gnu, names: seq<Name>) {
    && 0 < t.offset && t.offset + |t.chain| == |names| && t.shift < 32 && |t.bloom| > 0 && |t.buckets| > 0
    && (forall i :: t.offset <= i < |names| ==>
          t.chain[i - t.offset] / 2 == LinkerHash(names[i]) / 2 && Filtered(t, LinkerHash(names[i])))
    && (forall i, j :: t.offset <= i < j < |names| ==> BucketOf(t, names[i]) <= BucketOf(t, names[j]))
    && (forall i :: t.offset <= i < |names| ==> (t.chain[i - t.offset] % 2 == 1 <==> LastOfBucket(t, names, i)))
    && (forall b :: 0 <= b < |t.buckets| ==> FirstOfBucket(t, names, b, t.buckets[b]))
  }

  ghost predicate LastOfBucket(t: Gnu, names: seq<Name>, i: nat)
    requires |t.buckets| > 0 && i < |names|
  {
    i + 1 == |names| || BucketOf(t, names[i + 1]) != BucketOf(t, names[i])
  }

  ghost predicate FirstOfBucket(t: Gnu, names: seq<Name>, b: nat, first: nat)
    requires |t.buckets| > 0
  {
    if first == 0 then forall i :: t.offset <= i < |names| ==> BucketOf(t, names[i]) != b
    else t.offset <= first < |names| && BucketOf(t, names[first]) == b
         && forall i :: t.offset <= i < first ==> BucketOf(t, names[i]) != b
  }

  // What a plain scan of the hashed symbols finds.
  ghost predicate Scans(t: Gnu, names: seq<Name>, name: Name, r: Option<nat>) {
    match r
    case None => forall i :: t.offset <= i < |names| ==> names[i] != name
    case Some(k) => t.offset <= k < |names| && names[k] == name && forall i :: t.offset <= i < k ==> names[i] != name
  }

  // A symbol with the name lies in the name's bucket and passes the filter.
  lemma NamedIsHashed(t: Gnu, names: seq<Name>, name: Name, i: nat)
    requires GnuOk(t, names) && t.offset <= i < |names| && names[i] == name
    ensures BucketOf(t, names[i]) == BucketOf(t, name)
    ensures BloomMask(GnuHash(name), t.shift) <= BloomWord(t, GnuHash(name))
    ensures t.chain[i - t.offset] / 2 == GnuHash(name) / 2
  {
    GnuHashAgrees(name);
    PowerOfTwo(t.shift);
  }

  lemma PassesFilter(t: Gnu, names: seq<Name>, name: Name)
    requires GnuOk(t, names)
    ensures (exists i :: t.offset <= i < |names| && names[i] == name) ==> BloomMask(GnuHash(name), t.shift) <= BloomWord(t, GnuHash(name))
  {
    if i :| t.offset <= i < |names| && names[i] == name {
      NamedIsHashed(t, names, name, i);
    }
  }

  // The lookup finds exactly what the scan finds: the filter and the stop bits hide nothing.
  method LookupGnu(t: Gnu, names: seq<Name>, name: Name) returns (r: Option<nat>)
    requires GnuOk(t, names)
    ensures Scans(t, names, name, r)
  {
    var hash := GnuHash(name);
    var mask := BloomMask(hash, t.shift);
    PassesFilter(t, names, name);
    GnuHashAgrees(name);
    if !(mask <= BloomWord(t, hash)) {
      return None;
    }
    var first := t.buckets[hash % |t.buckets|];
    assert FirstOfBucket(t, names, BucketOf(t, name), first);
    if first == 0 {
      return None;
    }
    r := WalkChain(t, names, name, first);
  }

  // The chain walk from the bucket's first symbol to the stop bit.
  method WalkChain(t: Gnu, names: seq<Name>, name: Name, first: nat) returns (r: Option<nat>)
    requires GnuOk(t, names) && first != 0 && FirstOfBucket(t, names, BucketOf(t, name), first)
    ensures Scans(t, names, name, r)
  {
    var hash, index := GnuHash(name), first;
    while true
      invariant InRun(t, names, name, index)
      invariant forall i :: t.offset <= i < index ==> names[i] != name
      decreases |names| - index
    {
      var entry := t.chain[index - t.offset];
      if entry / 2 == hash / 2 {
        if names[index] == name {
          return Some(index);
        }
      } else if names[index] == name {
        NamedIsHashed(t, names, name, index);
      }
      if entry % 2 == 1 {
        break;
      }
      RunGoesOn(t, names, name, index);
      index := index + 1;
    }
    Exhausted(t, names, name, index);
    return None;
  }

  ghost predicate InRun(t: Gnu, names: seq<Name>, name: Name, index: nat)
    requires |t.buckets| > 0
  {
    t.offset <= index < |names| && BucketOf(t, names[index]) == BucketOf(t, name)
  }

  lemma RunGoesOn(t: Gnu, names: seq<Name>, name: Name, index: nat)
    requires GnuOk(t, names) && InRun(t, names, name, index) && t.chain[index - t.offset] % 2 == 0
    ensures InRun(t, names, name, index + 1)
  {
    assert !LastOfBucket(t, names, index);
  }

  // Past the stop bit no symbol belongs to the bucket.
  lemma Exhausted(t: Gnu, names: seq<Name>, name: Name, last: nat)
    requires GnuOk(t, names) && t.offset <= last < |names| && BucketOf(t, names[last]) == BucketOf(t, name)
    requires LastOfBucket(t, names, last)
    ensures forall i :: last < i < |names| ==> names[i] != name
  {
    forall i | last < i < |names| ensures names[i] != name {
      assert BucketOf(t, names[last + 1]) > BucketOf(t, names[last]);
      assert BucketOf(t, names[i]) >= BucketOf(t, names[last + 1]);
    }
  }

  // The count recovered from the highest bucket and its stop bit is exact; with every bucket
  // empty there is nothing to recover it from, and no symbol is hashed.
  method SymbolCountGnu(t: Gnu, names: seq<Name>) returns (n: Option<nat>)
    requires GnuOk(t, names)
    ensures n == if |t.chain| == 0 then None else Some(|names|)
  {
    var highest := 0;
    var b := 0;
    while b < |t.buckets|
      invariant b <= |t.buckets|
      invariant highest == 0 ==> forall c :: 0 <= c < b ==> t.buckets[c] == 0
      invariant highest != 0 ==> highest in t.buckets[..b]
      invariant forall c :: 0 <= c < b ==> t.buckets[c] <= highest
    {
      if t.buckets[b] > highest { highest := t.buckets[b]; }
      b := b + 1;
    }
    assert t.buckets[..b] == t.buckets;
    if |t.chain| > 0 { LastBucketUsed(t, names); }
    if highest == 0 {
      return None;
    }
    var c :| 0 <= c < |t.buckets| && t.buckets[c] == highest;
    assert FirstOfBucket(t, names, c, highest);
    HighestIsLast(t, names, highest);
    var index := highest;
    while t.chain[index - t.offset] % 2 == 0
      invariant highest <= index < |names|
      decreases |names| - index
    {
      assert !LastOfBucket(t, names, index);
      index := index + 1;
    }
    assert LastOfBucket(t, names, index);
    return Some(index + 1);
  }

  lemma LastBucketUsed(t: Gnu, names: seq<Name>)
    requires GnuOk(t, names) && |t.chain| > 0
    ensures exists c :: 0 <= c < |t.buckets| && t.buckets[c] != 0
  {
    var c := BucketOf(t, names[|names| - 1]);
    assert FirstOfBucket(t, names, c, t.buckets[c]);
  }

  // From the highest bucket entry on, all symbols share one bucket.
  lemma HighestIsLast(t: Gnu, names: seq<Name>, highest: nat)
    requires GnuOk(t, names) && highest != 0 && highest in t.buckets && forall c :: 0 <= c < |t.buckets| ==> t.buckets[c] <= highest
    requires t.offset <= highest < |names|
    ensures forall i :: highest <= i < |names| ==> BucketOf(t, names[i]) == BucketOf(t, names[highest])
  {
    forall i | highest <= i < |names| ensures BucketOf(t, names[i]) == BucketOf(t, names[highest]) {
      var c := BucketOf(t, names[i]);
      assert FirstOfBucket(t, names, c, t.buckets[c]);
      assert t.buckets[c] <= highest;
    }
  }

  // The table for the one name "a": its hash is 5381 * 33 + 97 = 177670, which sets bits 6 and 24 and
  // stands in the chain with the stop bit.
  lemma OneName()
    ensures GnuOk(Gnu(1, 6, [{6, 24}], [1], [177671]), [[], [97]])
  {
    var a: Name := [97];
    assert a[1..] == [] && Digits([]) == 0;
    assert Power(33, 0) == 1 && Power(33, 1) == 33;
    assert LinkerHash(a) == 177670;
    assert Power(2, 6) == 64 by {
      assert Power(2, 3) == 8;
    }
  }
}
