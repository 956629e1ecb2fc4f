/** A span's owner-side occupancy: 64 words of 64 slot bits, a summary word with a bit for
    every full word, and the number of occupied slots. A 64-bit word is the set of its one
    bits, so `|=`, `&= !` and the popcount are union, difference and cardinality. */
module Occupancy {
  const BITS: nat := 64
  const WORD_COUNT: nat := 64
  const MAX_SLOTS: nat := WORD_COUNT * BITS

  type Word = set<nat>

  predicate Between(lo: nat, b: nat, hi: nat) { lo <= b < hi }

  // The numbers from `lo` up to `hi`: as a word, a run of one bits.
  function Range(lo: nat, hi: nat): set<nat> { set b: nat | b < hi && Between(lo, b, hi) }

  lemma RangeSize(n: nat)
    ensures |Range(0, n)| == n
  {
    if n > 0 {
      RangeSize(n - 1);
      assert Range(0, n) == Range(0, n - 1) + {n - 1};
    }
  }

  function Ones(): Word { Range(0, BITS) }

  ghost predicate IsWord(w: Word) { forall b :: b in w ==> b < BITS }

  // ---------------------------------------------------------------- bit operations

  // Distance from bit `start` up to bit `b`, going round the word.
  function Distance(start: nat, b: nat): nat
    requires start < BITS
  {
    if b >= start then b - start else b + BITS - start
  }

  // The bit at a distance from `start`.
  function BitAt(start: nat, distance: nat): nat {
    if start + distance < BITS then start + distance else start + distance - BITS
  }

  function RotateRight(w: Word, r: nat): Word
    requires r < BITS
  {
    set b | b in w :: Distance(r, b)
  }

  function RotateLeft(w: Word, r: nat): Word { set b | b in w :: BitAt(r, b) }

  function TrailingZeros(w: Word): (z: nat)
    requires w != {}
    ensures z in w && forall b :: b in w ==> z <= b
  {
    HasLeast(w);
    var z :| z in w && forall b :: b in w ==> z <= b;
    z
  }

  lemma HasLeast(w: Word)
    requires w != {}
    ensures exists z :: z in w && forall b :: b in w ==> z <= b
  {
    var b :| b in w;
    var rest := w - {b};
    if rest == {} {
      assert w == {b};
      assert b in w && forall c :: c in w ==> b <= c;
    } else {
      HasLeast(rest);
      var z :| z in rest && forall c :: c in rest ==> z <= c;
      LeastOfTwo(w, b, z);
    }
  }

  lemma LeastOfTwo(w: Word, b: nat, z: nat)
    requires b in w && z in w - {b} && forall c :: c in w - {b} ==> z <= c
    ensures exists least :: least in w && forall c :: c in w ==> least <= c
  {
    forall c | c in w ensures z <= c || b == c {
      assert c == b || c in w - {b};
    }
    if z <= b {
      assert z in w && forall c :: c in w ==> z <= c;
    } else {
      assert b in w && forall c :: c in w ==> b <= c;
    }
  }

  // Parallel deposit of `n` low ones: the `n` lowest one bits of the mask.
  function DepositOnes(n: nat, mask: Word): (w: Word)
    ensures w <= mask && |w| == if n < |mask| then n else |mask|
    ensures forall b, c :: b in w && c in mask && c !in w ==> b < c
  {
    if n == 0 || mask == {} then {}
    else
      var z := TrailingZeros(mask);
      var rest := DepositOnes(n - 1, mask - {z});
      assert z !in rest;
      rest + {z}
  }

  lemma RotateSize(w: Word, r: nat)
    requires IsWord(w) && r < BITS
    ensures |RotateRight(w, r)| == |w|
  {
    if w != {} {
      var b :| b in w;
      RotateSize(w - {b}, r);
      assert RotateRight(w, r) == RotateRight(w - {b}, r) + {Distance(r, b)};
      assert Distance(r, b) !in RotateRight(w - {b}, r);
    }
  }

  // Rotating part of a rotated word back selects the bits that had been rotated into the part.
  lemma RotateBack(w: Word, r: nat, part: Word, b: nat)
    requires IsWord(w) && r < BITS && part <= RotateRight(w, r)
    ensures b in RotateLeft(part, r) <==> b in w && Distance(r, b) in part
  {
    if b in RotateLeft(part, r) {
      var d :| d in part && b == BitAt(r, d);
      var c :| c in w && d == Distance(r, c);
      assert b == c;
    }
    if b in w && Distance(r, b) in part {
      assert BitAt(r, Distance(r, b)) == b;
    }
  }

  lemma RotateBackSize(r: nat, part: Word)
    requires IsWord(part) && r < BITS
    ensures |RotateLeft(part, r)| == |part|
  {
    if part != {} {
      var d :| d in part;
      RotateBackSize(r, part - {d});
      assert RotateLeft(part, r) == RotateLeft(part - {d}, r) + {BitAt(r, d)};
      assert BitAt(r, d) !in RotateLeft(part - {d}, r);
    }
  }

  // A rotated window of a word: bits of the word, as many, and nearer to the start than the rest.
  lemma Window(w: Word, r: nat, part: Word)
    requires IsWord(w) && r < BITS && part <= RotateRight(w, r)
    requires forall b, c :: b in part && c in RotateRight(w, r) && c !in part ==> b < c
    ensures var back := RotateLeft(part, r);
            && back <= w && |back| == |part|
            && forall b, c :: b in back && c in w && c !in back ==> Distance(r, b) < Distance(r, c)
  {
    var back := RotateLeft(part, r);
    RotateBackSize(r, part);
    forall b | b in back ensures b in w && Distance(r, b) in part { RotateBack(w, r, part, b); }
    forall c | c in w && c !in back ensures Distance(r, c) !in part && Distance(r, c) in RotateRight(w, r) {
      RotateBack(w, r, part, c);
    }
  }

  // ---------------------------------------------------------------- slots

  function Slots(word: nat, mask: Word): set<nat> { set b | b in mask :: BITS * word + b }

  lemma SlotsSize(word: nat, mask: Word)
    ensures |Slots(word, mask)| == |mask|
  {
    if mask != {} {
      var b :| b in mask;
      SlotsSize(word, mask - {b});
      assert Slots(word, mask) == Slots(word, mask - {b}) + {BITS * word + b} by {
        forall i | i in Slots(word, mask) ensures i in Slots(word, mask - {b}) + {BITS * word + b} {
          var c :| c in mask && i == BITS * word + c;
          assert c == b || c in mask - {b};
        }
      }
    }
  }

  lemma SlotParts(word: nat, b: nat)
    requires b < BITS
    ensures (BITS * word + b) / BITS == word && (BITS * word + b) % BITS == b
  {}

  // The slots below `total` whose bit is set.
  ghost function InUse(bitmap: seq<Word>, total: nat): set<nat>
    requires |bitmap| == WORD_COUNT && total <= MAX_SLOTS
  {
    set i | 0 <= i < total && i % BITS in bitmap[i / BITS]
  }

  // Bits past the last slot are set for good; a summary bit is set exactly for a full word.
  ghost predicate Marked(bitmap: seq<Word>, summary: Word, total: nat) {
    && |bitmap| == WORD_COUNT && 0 < total <= MAX_SLOTS && IsWord(summary)
    && (forall w :: 0 <= w < WORD_COUNT ==> IsWord(bitmap[w]))
    && (forall w, b :: 0 <= w < WORD_COUNT && 0 <= b < BITS && BITS * w + b >= total ==> b in bitmap[w])
    && (forall w :: 0 <= w < WORD_COUNT ==> (w in summary <==> bitmap[w] == Ones()))
  }

  // Which slots are in use after one word changed.
  lemma WordChanged(bitmap: seq<Word>, total: nat, w: nat, word: Word)
    requires |bitmap| == WORD_COUNT && total <= MAX_SLOTS && w < WORD_COUNT
    ensures forall i :: 0 <= i < total ==>
      (i in InUse(bitmap[w := word], total) <==> if i / BITS == w then i % BITS in word else i in InUse(bitmap, total))
  {}

  lemma InSlots(w: nat, mask: Word, i: nat)
    requires IsWord(mask)
    ensures i in Slots(w, mask) <==> i / BITS == w && i % BITS in mask
  {
    if i in Slots(w, mask) {
      SlotParts(w, i - BITS * w);
    }
    if i / BITS == w && i % BITS in mask {
      assert i == BITS * w + i % BITS;
    }
  }

  lemma MarkedAfter(bitmap: seq<Word>, summary: Word, total: nat, w: nat, word: Word)
    requires Marked(bitmap, summary, total) && w < WORD_COUNT && IsWord(word)
    requires forall b :: 0 <= b < BITS && BITS * w + b >= total ==> b in word
    ensures Marked(bitmap[w := word], if word == Ones() then summary + {w} else summary - {w}, total)
  {}

  // Setting free bits of one word occupies exactly their slots.
  lemma Occupy(bitmap: seq<Word>, summary: Word, total: nat, w: nat, claimed: Word)
    requires Marked(bitmap, summary, total) && w < WORD_COUNT && bitmap[w] != Ones() && claimed <= Ones() - bitmap[w]
    ensures var word := bitmap[w] + claimed;
            && Marked(bitmap[w := word], if word == Ones() then summary + {w} else summary, total)
            && InUse(bitmap[w := word], total) == InUse(bitmap, total) + Slots(w, claimed)
    ensures Slots(w, claimed) !! InUse(bitmap, total)
    ensures forall i :: i in Slots(w, claimed) ==> i < total
    ensures |Slots(w, claimed)| == |claimed|
  {
    var word := bitmap[w] + claimed;
    SlotsSize(w, claimed);
    MarkedAfter(bitmap, summary, total, w, word);
    assert summary - {w} == summary;
    WordChanged(bitmap, total, w, word);
    forall i: nat ensures i in Slots(w, claimed) <==> i / BITS == w && i % BITS in claimed { InSlots(w, claimed, i); }
    forall i | i in Slots(w, claimed) ensures i < total && i !in InUse(bitmap, total) {
      assert i % BITS !in bitmap[w] && i == BITS * w + i % BITS;
    }
  }

  // Clearing set bits of slots of one word vacates exactly those slots.
  lemma Vacate(bitmap: seq<Word>, summary: Word, total: nat, w: nat, freed: Word)
    requires Marked(bitmap, summary, total) && w < WORD_COUNT && freed <= bitmap[w] && freed != {}
    requires forall b :: b in freed ==> BITS * w + b < total
    ensures Marked(bitmap[w := bitmap[w] - freed], summary - {w}, total)
    ensures InUse(bitmap[w := bitmap[w] - freed], total) == InUse(bitmap, total) - Slots(w, freed)
    ensures Slots(w, freed) <= InUse(bitmap, total) && |Slots(w, freed)| == |freed|
  {
    var word := bitmap[w] - freed;
    SlotsSize(w, freed);
    var b :| b in freed;
    assert b in Ones() && b !in word;
    MarkedAfter(bitmap, summary, total, w, word);
    WordChanged(bitmap, total, w, word);
    forall i: nat ensures i in Slots(w, freed) <==> i / BITS == w && i % BITS in freed { InSlots(w, freed, i); }
    forall i | i in Slots(w, freed) ensures i in InUse(bitmap, total) {
      assert i == BITS * w + i % BITS;
    }
  }

  // The summary is full exactly when every slot is taken.
  lemma FullSummary(bitmap: seq<Word>, summary: Word, total: nat)
    requires Marked(bitmap, summary, total)
    ensures summary == Ones() <==> InUse(bitmap, total) == Range(0, total)
    ensures |InUse(bitmap, total)| <= total
    ensures |InUse(bitmap, total)| == total <==> InUse(bitmap, total) == Range(0, total)
  {
    var everything := Range(0, total);
    RangeSize(total);
    if summary == Ones() {
      forall i | 0 <= i < total ensures i in InUse(bitmap, total) {
        assert i / BITS in Ones();
        assert i % BITS in Ones();
      }
    }
    if InUse(bitmap, total) == everything {
      forall w | 0 <= w < WORD_COUNT ensures w in summary {
        forall b | 0 <= b < BITS ensures b in bitmap[w] {
          SlotParts(w, b);
          if BITS * w + b < total { assert BITS * w + b in everything; }
        }
        assert bitmap[w] == Ones();
      }
      assert summary == Ones();
    }
    SubsetOfSameSize(InUse(bitmap, total), everything);
  }

  lemma SubsetOfSameSize(a: set<nat>, b: set<nat>)
    requires a <= b
    ensures |a| <= |b| && (|a| == |b| <==> a == b)
  {
    assert b == a + (b - a);
  }

  datatype Claim = Nothing | Claimed(word: nat, mask: Word)

  // Expands a claimed word into slots, clearing the lowest bit of the mask each time.
  method ExpandClaim(word: nat, mask: Word) returns (slots: seq<nat>)
    ensures |slots| == |mask| && (forall i :: i in slots <==> i in Slots(word, mask))
    ensures forall j, k :: 0 <= j < k < |slots| ==> slots[j] < slots[k]
  {
    slots := [];
    var rest := mask;
    while rest != {}
      invariant rest <= mask && |slots| + |rest| == |mask|
      invariant forall i :: i in slots <==> i in Slots(word, mask - rest)
      invariant forall j, k :: 0 <= j < k < |slots| ==> slots[j] < slots[k]
      invariant forall j, b :: 0 <= j < |slots| && b in rest ==> slots[j] < BITS * word + b
      decreases |rest|
    {
      var offset := TrailingZeros(rest);
      assert mask - (rest - {offset}) == mask - rest + {offset};
      slots := slots + [BITS * word + offset];
      rest := rest - {offset};
    }
    assert mask - rest == mask;
  }

  class LocalOccupancy {
    const total: nat
    var slotsOccupied: nat
    var summary: Word
    const bitmap: array<Word>

    ghost predicate Valid()
      reads this, bitmap
    {
      && Marked(bitmap[..], summary, total)
      && slotsOccupied == |InUse(bitmap[..], total)|
    }

    ghost function Used(): set<nat>
      requires Valid()
      reads this, bitmap
    {
      InUse(bitmap[..], total)
    }

    constructor (total: nat)
      requires 0 < total <= MAX_SLOTS
      ensures Valid() && fresh(bitmap) && this.total == total && Used() == {}
    {
      var fullWords, trailingBits := total / BITS, total % BITS;
      var words: array<Word> := new Word[WORD_COUNT](_ => {});
      for w := fullWords to WORD_COUNT
        invariant forall v :: 0 <= v < WORD_COUNT ==> words[v] == if fullWords <= v < w then Ones() else {}
      {
        words[w] := Ones();
      }
      if fullWords < WORD_COUNT {
        words[fullWords] := Range(trailingBits, BITS);
      }
      var liveWords := fullWords + if trailingBits > 0 then 1 else 0;
      this.total, slotsOccupied, bitmap := total, 0, words;
      summary := Range(liveWords, BITS);
      new;
      FreshMarks(bitmap[..], summary, total);
    }

    // Claims from the first word with a free slot, and in it the first free bits, both counted
    // round from starting points the random number picks.
    method ClaimUpTo(max: nat, random: nat) returns (claim: Claim)
      requires Valid()
      modifies this, bitmap
      ensures Valid()
      ensures claim.Nothing? <==> max == 0 || old(Used()) == Range(0, total)
      ensures claim.Nothing? ==> bitmap[..] == old(bitmap[..]) && summary == old(summary)
      ensures claim.Claimed? ==>
        var w, start := claim.word, random / 64 % 64;
        && w < WORD_COUNT
        && var free := Ones() - old(bitmap[..])[w];
        && free != {} && claim.mask <= free
        && |claim.mask| == (if max < |free| then max else |free|)
        && (forall b, c :: b in claim.mask && c in free && c !in claim.mask ==> Distance(start, b) < Distance(start, c))
        && (forall v :: 0 <= v < WORD_COUNT && old(bitmap[v]) != Ones() ==> Distance(random % 64, w) <= Distance(random % 64, v))
        && Used() == old(Used()) + Slots(w, claim.mask) && Slots(w, claim.mask) !! old(Used())
        && (forall i :: i in Slots(w, claim.mask) ==> i < total)
        && slotsOccupied == old(slotsOccupied) + |claim.mask|
    {
      FullSummary(bitmap[..], summary, total);
      if summary == Ones() || max == 0 {
        return Nothing;
      }
      var w := PickWord(random % 64);
      var mask := PickBits(Ones() - bitmap[w], max, random / 64 % 64);
      Take(w, mask);
      return Claimed(w, mask);
    }

    method Take(w: nat, mask: Word)
      requires Valid() && w < WORD_COUNT && bitmap[w] != Ones() && mask <= Ones() - bitmap[w]
      modifies this, bitmap
      ensures Valid() && Used() == old(Used()) + Slots(w, mask) && Slots(w, mask) !! old(Used())
      ensures forall i :: i in Slots(w, mask) ==> i < total
      ensures slotsOccupied == old(slotsOccupied) + |mask|
    {
      Occupy(bitmap[..], summary, total, w, mask);
      bitmap[w] := bitmap[w] + mask;
      if bitmap[w] == Ones() { summary := summary + {w}; }
      slotsOccupied := slotsOccupied + |mask|;
      assert bitmap[..] == old(bitmap[..])[w := old(bitmap[w]) + mask];
    }

    method PickWord(rotation: nat) returns (w: nat)
      requires Valid() && summary != Ones() && rotation < BITS
      ensures w < WORD_COUNT && bitmap[w] != Ones()
      ensures forall v :: 0 <= v < WORD_COUNT && bitmap[v] != Ones() ==> Distance(rotation, w) <= Distance(rotation, v)
    {
      var freeWords := Ones() - summary;
      SomeZero(summary);
      var v :| v in freeWords;
      assert Distance(rotation, v) in RotateRight(freeWords, rotation);
      var zeros := TrailingZeros(RotateRight(freeWords, rotation));
      w := (rotation + zeros) % BITS;
      NearestWord(freeWords, rotation, zeros);
      forall u | 0 <= u < WORD_COUNT && bitmap[u] != Ones() ensures Distance(rotation, w) <= Distance(rotation, u) {
        assert u in freeWords;
        assert Distance(rotation, u) in RotateRight(freeWords, rotation);
      }
    }

    method PickBits(free: Word, max: nat, rotation: nat) returns (mask: Word)
      requires IsWord(free) && rotation < BITS
      ensures mask <= free && |mask| == if max < |free| then max else |free|
      ensures forall b, c :: b in mask && c in free && c !in mask ==> Distance(rotation, b) < Distance(rotation, c)
    {
      if max >= |free| {
        mask := free;
      } else {
        RotateSize(free, rotation);
        var window := DepositOnes(max, RotateRight(free, rotation));
        Window(free, rotation, window);
        mask := RotateLeft(window, rotation);
      }
    }

    method ReleaseSlot(slot: nat)
      requires Valid() && slot in Used()
      modifies this, bitmap
      ensures Valid() && Used() == old(Used()) - {slot}
      ensures slotsOccupied == old(slotsOccupied) - 1
    {
      var w, b := slot / BITS, slot % BITS;
      Vacate(bitmap[..], summary, total, w, {b});
      assert Slots(w, {b}) == {slot};
      slotsOccupied := slotsOccupied - 1;
      bitmap[w] := bitmap[w] - {b};
      summary := summary - {w};
      assert bitmap[..] == old(bitmap[..])[w := old(bitmap[w]) - {b}];
    }

    // Folds one word of remote frees in. `ok` is false where the program's assertion fires.
    method ReleaseSlotsByWord(w: nat, freed: Word) returns (ok: bool)
      requires Valid() && w < WORD_COUNT && forall b :: b in freed ==> b < BITS && BITS * w + b < total
      modifies this, bitmap
      ensures Valid() && (ok <==> Slots(w, freed) <= old(Used()))
      ensures Used() == if ok then old(Used()) - Slots(w, freed) else old(Used())
      ensures slotsOccupied == if ok then old(slotsOccupied) - |freed| else old(slotsOccupied)
    {
      FreedBits(bitmap[..], total, w, freed);
      if freed == {} {
        return true;
      }
      if !(freed <= bitmap[w]) {
        return false;
      }
      Vacate(bitmap[..], summary, total, w, freed);
      bitmap[w] := bitmap[w] - freed;
      summary := summary - {w};
      slotsOccupied := slotsOccupied - |freed|;
      assert bitmap[..] == old(bitmap[..])[w := old(bitmap[w]) - freed];
      return true;
    }

    method IsSlotOccupied(slot: nat) returns (occupied: bool)
      requires Valid() && slot < total
      ensures occupied <==> slot in Used()
    {
      occupied := slot % BITS in bitmap[slot / BITS];
    }
  }

  lemma FreshMarks(bitmap: seq<Word>, summary: Word, total: nat)
    requires 0 < total <= MAX_SLOTS && |bitmap| == WORD_COUNT
    requires forall w :: 0 <= w < WORD_COUNT ==>
      bitmap[w] == (if w < total / BITS then {} else if w == total / BITS then Range(total % BITS, BITS) else Ones())
    requires summary == Range(total / BITS + if total % BITS > 0 then 1 else 0, BITS)
    ensures Marked(bitmap, summary, total) && InUse(bitmap, total) == {}
  {
    forall w | 0 <= w < WORD_COUNT ensures w in summary <==> bitmap[w] == Ones() {
      assert 0 in Ones();
      if w == total / BITS && total % BITS == 0 { assert bitmap[w] == Ones(); }
    }
  }

  lemma SomeZero(w: Word)
    requires IsWord(w) && w != Ones()
    ensures Ones() - w != {}
  {
    var b :| (b in Ones() && b !in w) || (b in w && b !in Ones());
    assert b in Ones() - w;
  }

  lemma NearestWord(free: Word, rotation: nat, zeros: nat)
    requires IsWord(free) && rotation < BITS && zeros in RotateRight(free, rotation)
    ensures (rotation + zeros) % BITS in free && Distance(rotation, (rotation + zeros) % BITS) == zeros
  {
    var b :| b in free && zeros == Distance(rotation, b);
    assert (rotation + zeros) % BITS == b;
  }

  lemma FreedBits(bitmap: seq<Word>, total: nat, w: nat, freed: Word)
    requires |bitmap| == WORD_COUNT && total <= MAX_SLOTS && w < WORD_COUNT
    requires forall b :: b in freed ==> b < BITS && BITS * w + b < total
    ensures Slots(w, freed) <= InUse(bitmap, total) <==> freed <= bitmap[w]
  {
    forall b | b in freed ensures BITS * w + b in InUse(bitmap, total) <==> b in bitmap[w] { SlotParts(w, b); }
    if Slots(w, freed) <= InUse(bitmap, total) {
      forall b | b in freed ensures b in bitmap[w] { assert BITS * w + b in Slots(w, freed); }
    }
  }
}
