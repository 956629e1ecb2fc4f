/** A span's two occupancies: the owner's bitmap and the side channel other threads free
    through. Each method of the side channel is one atomic operation; the owner's reclaim
    empties the channel into the bitmap, word by word. */
module Spans {
  import opened Occupancy

  class RemoteOccupancy {
    var summary: Word
    const bitmap: array<Word>

    ghost predicate Valid()
      reads this, bitmap
    {
      bitmap.Length == WORD_COUNT && IsWord(summary) && forall w :: 0 <= w < WORD_COUNT ==> IsWord(bitmap[w])
    }

    // The slots freed by other threads and not reclaimed yet.
    ghost function Pending(): set<nat>
      requires Valid()
      reads this, bitmap
    {
      InUse(bitmap[..], MAX_SLOTS)
    }

    // Every word with a pending slot is among `words`.
    ghost predicate MarkedBy(words: Word)
      requires Valid()
      reads this, bitmap
    {
      forall w :: 0 <= w < WORD_COUNT && bitmap[w] != {} ==> w in words
    }

    constructor ()
      ensures Valid() && fresh(bitmap) && Pending() == {} && summary == {}
    {
      summary := {};
      bitmap := new Word[WORD_COUNT](_ => {});
    }

    lemma NothingLeft()
      requires Valid() && MarkedBy({})
      ensures Pending() == {}
    {}

    method HasRemoteFrees() returns (some: bool)
      ensures some <==> summary != {}
    {
      some := summary != {};
    }

    // A freeing thread's first store.
    method StoreWord(slot: nat)
      requires Valid() && slot < MAX_SLOTS
      modifies bitmap
      ensures Valid() && Pending() == old(Pending()) + {slot}
    {
      var w, b := slot / BITS, slot % BITS;
      WordChanged(bitmap[..], MAX_SLOTS, w, bitmap[w] + {b});
      bitmap[w] := bitmap[w] + {b};
      assert bitmap[..] == old(bitmap[..])[w := bitmap[w]];
    }

    // Its second store.
    method StoreSummary(slot: nat)
      requires Valid() && slot < MAX_SLOTS
      modifies this`summary
      ensures Valid() && Pending() == old(Pending()) && summary == old(summary) + {slot / BITS}
    {
      summary := summary + {slot / BITS};
    }

    method SwapSummary() returns (pending: Word)
      requires Valid()
      modifies this`summary
      ensures Valid() && Pending() == old(Pending()) && pending == old(summary) && summary == {}
    {
      pending := summary;
      summary := {};
    }

    method SwapWord(w: nat) returns (freed: Word)
      requires Valid() && w < WORD_COUNT
      modifies bitmap
      ensures Valid() && bitmap[..] == old(bitmap[..])[w := {}] && freed == old(bitmap[w])
      ensures Pending() == old(Pending()) - Slots(w, freed) && Slots(w, freed) <= old(Pending())
    {
      freed := bitmap[w];
      WordChanged(bitmap[..], MAX_SLOTS, w, {});
      forall i: nat ensures i in Slots(w, freed) <==> i / BITS == w && i % BITS in freed { InSlots(w, freed, i); }
      forall i | i in Slots(w, freed) ensures i < MAX_SLOTS && i in Pending() { assert i == BITS * w + i % BITS; }
      bitmap[w] := {};
      assert bitmap[..] == old(bitmap[..])[w := {}];
    }

    // The same, and what words may still have a pending slot.
    method SwapMarked(w: nat, ghost words: Word) returns (freed: Word)
      requires Valid() && w < WORD_COUNT && MarkedBy(words)
      modifies bitmap
      ensures Valid() && freed == old(bitmap[w]) && MarkedBy(words - {w})
      ensures Pending() == old(Pending()) - Slots(w, freed) && Slots(w, freed) <= old(Pending())
    {
      ghost var before := bitmap[..];
      freed := SwapWord(w);
      forall v | 0 <= v < WORD_COUNT && bitmap[v] != {} ensures v in words - {w} {
        assert bitmap[..][v] == before[w := {}][v];
      }
    }
  }

  class Span {
    const local: LocalOccupancy
    const remote: RemoteOccupancy

    ghost predicate Valid()
      reads this, local, local.bitmap, remote, remote.bitmap
    {
      local.bitmap != remote.bitmap && local.Valid() && remote.Valid()
    }

    constructor (total: nat)
      requires 0 < total <= MAX_SLOTS
      ensures Valid() && fresh(local) && fresh(remote) && fresh(local.bitmap) && fresh(remote.bitmap)
      ensures local.total == total && local.Used() == {} && remote.Pending() == {}
    {
      local := new LocalOccupancy(total);
      remote := new RemoteOccupancy();
    }

    // With single frees only, the drain empties the channel and frees exactly its slots; the
    // check against freeing an unallocated slot passes for every word.
    method ReclaimRemoteFrees() returns (ok: bool)
      requires Valid() && remote.MarkedBy(remote.summary) && remote.Pending() <= local.Used()
      modifies local, local.bitmap, remote, remote.bitmap
      ensures ok && Valid() && remote.Pending() == {} && remote.summary == {}
      ensures local.Used() == old(local.Used()) - old(remote.Pending())
    {
      ok := true;
      ghost var used, freed := local.Used(), remote.Pending();
      var pending := remote.SwapSummary();
      while pending != {}
        invariant Valid() && ok && remote.summary == {} && IsWord(pending)
        invariant remote.Pending() <= local.Used() && Moved(used, freed, local.Used(), remote.Pending())
        invariant remote.MarkedBy(pending)
        decreases |pending|
      {
        ghost var usedBefore, freedBefore := local.Used(), remote.Pending();
        var w := TrailingZeros(pending);
        ok := ReclaimWord(w, pending);
        pending := pending - {w};
        MovedOn(used, freed, usedBefore, freedBefore, local.Used(), remote.Pending());
      }
      remote.NothingLeft();
    }

    // One word of the side channel goes into the owner's bitmap.
    method ReclaimWord(w: nat, ghost words: Word) returns (ok: bool)
      requires Valid() && w < WORD_COUNT && remote.MarkedBy(words) && remote.Pending() <= local.Used()
      modifies local, local.bitmap, remote.bitmap
      ensures ok && Valid() && remote.MarkedBy(words - {w})
      ensures remote.Pending() <= local.Used()
      ensures Moved(old(local.Used()), old(remote.Pending()), local.Used(), remote.Pending())
    {
      var freed := remote.SwapMarked(w, words);
      InRange(freed, w, local.Used(), local.total);
      ok := local.ReleaseSlotsByWord(w, freed);
    }
  }

  // What left the side channel was freed in the bitmap, and nothing else was.
  ghost predicate Moved(used: set<nat>, pending: set<nat>, used': set<nat>, pending': set<nat>) {
    pending' <= pending && used' == used - (pending - pending')
  }

  lemma MovedOn(a: set<nat>, p: set<nat>, b: set<nat>, q: set<nat>, c: set<nat>, r: set<nat>)
    requires Moved(a, p, b, q) && Moved(b, q, c, r)
    ensures Moved(a, p, c, r)
  {}

  lemma InRange(freed: Word, w: nat, used: set<nat>, total: nat)
    requires IsWord(freed) && Slots(w, freed) <= used && forall i :: i in used ==> i < total
    ensures forall b :: b in freed ==> b < BITS && BITS * w + b < total
  {
    forall b | b in freed ensures BITS * w + b < total { assert BITS * w + b in Slots(w, freed); }
  }
}
