/** The thread-local storage layout: one reserve of bytes shared by all modules, handed out
    from the top of the highest free chunk that fits and coalesced when given back. */
module TlsLayout {
  import opened Arithmetic
  import opened Wrappers

  const RESERVE: nat := 0x80_0000

  datatype Chunk = Chunk(offset: nat, size: nat)
  {
    function Top(): nat { offset + size }
  }

  function RoundUp(size: nat, boundary: nat): nat
    requires boundary > 0
  {
    boundary * ((size + boundary - 1) / boundary)
  }

  // The size of a block is the least multiple of its alignment that holds it.
  lemma RoundUpLeast(size: nat, boundary: nat)
    requires boundary > 0
    ensures var r := RoundUp(size, boundary);
            && size <= r < size + boundary && r % boundary == 0
            && forall k: nat :: size <= boundary * k ==> r <= boundary * k
  {
    var q := (size + boundary - 1) / boundary;
    assert size + boundary - 1 == boundary * q + (size + boundary - 1) % boundary;
    Multiple(boundary, q);
    forall k: nat | size <= boundary * k ensures boundary * q <= boundary * k {
      LeastMultiple(size, boundary, q, k);
    }
  }

  // ---------------------------------------------------------------- free chunks

  // Sorted by offset, with a gap between any two chunks, so none touch and none can be merged.
  ghost predicate Coalesced(free: seq<Chunk>) {
    && (forall i :: 0 <= i < |free| ==> free[i].size > 0 && free[i].Top() <= RESERVE)
    && (forall i, j :: 0 <= i < j < |free| ==> free[i].Top() < free[j].offset)
  }

  ghost predicate FreeAt(free: seq<Chunk>, a: nat) {
    exists i :: 0 <= i < |free| && free[i].offset <= a < free[i].Top()
  }

  ghost predicate AllFree(free: seq<Chunk>, start: nat, size: nat) {
    forall a :: start <= a < start + size ==> FreeAt(free, a)
  }

  // A free run lies inside one chunk, because chunks never touch.
  lemma RunInOneChunk(free: seq<Chunk>, start: nat, size: nat) returns (i: nat)
    requires Coalesced(free) && size > 0 && AllFree(free, start, size)
    ensures i < |free| && free[i].offset <= start && start + size <= free[i].Top()
    decreases size
  {
    if size == 1 {
      assert FreeAt(free, start);
      i :| 0 <= i < |free| && free[i].offset <= start < free[i].Top();
    } else {
      i := RunInOneChunk(free, start, size - 1);
      assert FreeAt(free, start + size - 1);
      var j :| 0 <= j < |free| && free[j].offset <= start + size - 1 < free[j].Top();
      assert i == j;
    }
  }

  // The free bytes determine the list: two coalesced lists with the same free bytes are equal.
  lemma Canonical(a: seq<Chunk>, b: seq<Chunk>)
    requires Coalesced(a) && Coalesced(b) && forall x :: FreeAt(a, x) <==> FreeAt(b, x)
    ensures a == b
    decreases |a|
  {
    if a == [] {
      if b != [] { assert FreeAt(b, b[0].offset); }
    } else {
      assert FreeAt(a, a[0].offset);
      LastChunksEqual(a, b);
      var m, n := |a| - 1, |b| - 1;
      forall x ensures FreeAt(a[..m], x) <==> FreeAt(b[..n], x) {
        DropLast(a, x);
        DropLast(b, x);
      }
      Canonical(a[..m], b[..n]);
      assert a == a[..m] + [a[m]] && b == b[..n] + [b[n]];
    }
  }

  lemma DropLast(a: seq<Chunk>, x: nat)
    requires Coalesced(a) && a != []
    ensures FreeAt(a[..|a| - 1], x) <==> FreeAt(a, x) && x < a[|a| - 1].offset
  {
    if FreeAt(a, x) {
      var i :| 0 <= i < |a| && a[i].offset <= x < a[i].Top();
      if i < |a| - 1 { assert a[..|a| - 1][i] == a[i]; }
    }
    if FreeAt(a[..|a| - 1], x) {
      var i :| 0 <= i < |a| - 1 && a[..|a| - 1][i].offset <= x < a[..|a| - 1][i].Top();
      assert a[i].Top() < a[|a| - 1].offset;
      assert a[i].offset <= x < a[i].Top();
    }
  }

  lemma LastContained(a: seq<Chunk>, b: seq<Chunk>) returns (j: nat)
    requires Coalesced(a) && Coalesced(b) && a != [] && forall x :: FreeAt(a, x) <==> FreeAt(b, x)
    ensures j < |b| && b[j].offset <= a[|a| - 1].offset && a[|a| - 1].Top() <= b[j].Top()
  {
    var last := a[|a| - 1];
    forall x | last.offset <= x < last.offset + last.size ensures FreeAt(b, x) {
      assert FreeAt(a, x);
    }
    j := RunInOneChunk(b, last.offset, last.size);
  }

  lemma LastChunksEqual(a: seq<Chunk>, b: seq<Chunk>)
    requires Coalesced(a) && Coalesced(b) && a != [] && b != [] && forall x :: FreeAt(a, x) <==> FreeAt(b, x)
    ensures a[|a| - 1] == b[|b| - 1]
  {
    var j := LastContained(a, b);
    var i := LastContained(b, a);
  }

  // ---------------------------------------------------------------- giving a region back

  // The first chunk at or past `end`.
  function Position(free: seq<Chunk>, end: nat): (k: nat)
    ensures k <= |free|
    ensures k < |free| ==> free[k].offset >= end
    ensures forall i :: 0 <= i < k ==> free[i].offset < end
  {
    if free == [] || free[0].offset >= end then 0 else 1 + Position(free[1..], end)
  }

  predicate MergesDown(free: seq<Chunk>, offset: nat, size: nat) {
    var k := Position(free, offset + size);
    k > 0 && free[k - 1].Top() == offset
  }

  predicate MergesUp(free: seq<Chunk>, offset: nat, size: nat) {
    var k := Position(free, offset + size);
    k < |free| && free[k].offset == offset + size
  }

  // The list after a release: the region and the neighbours it touches become one chunk.
  function Released(free: seq<Chunk>, offset: nat, size: nat): seq<Chunk>
    requires Ordered(free)
  {
    Around(free, Low(free, offset, size), High(free, offset, size), Merged(free, offset, size))
  }

  // The list with the chunks from `lo` to `hi` replaced by one.
  function Around(free: seq<Chunk>, lo: nat, hi: nat, c: Chunk): seq<Chunk>
    requires lo <= |free| && hi <= |free|
  {
    free[..lo] + [c] + free[hi..]
  }

  predicate Ordered(free: seq<Chunk>) { forall i, j :: 0 <= i < j < |free| ==> free[i].Top() < free[j].offset }

  function Low(free: seq<Chunk>, offset: nat, size: nat): (lo: nat)
    ensures lo <= |free|
  {
    var k := Position(free, offset + size);
    if MergesDown(free, offset, size) then k - 1 else k
  }

  function High(free: seq<Chunk>, offset: nat, size: nat): (hi: nat)
    ensures hi <= |free|
  {
    var k := Position(free, offset + size);
    if MergesUp(free, offset, size) then k + 1 else k
  }

  function Merged(free: seq<Chunk>, offset: nat, size: nat): Chunk
    requires Ordered(free)
  {
    var k := Position(free, offset + size);
    var start := if MergesDown(free, offset, size) then free[k - 1].offset else offset;
    Chunk(start, (if MergesUp(free, offset, size) then free[k].Top() else offset + size) - start)
  }

  // No byte of the region is free yet.
  ghost predicate Apart(free: seq<Chunk>, offset: nat, size: nat) {
    forall i :: 0 <= i < |free| ==> free[i].Top() <= offset || offset + size <= free[i].offset
  }

  predicate Covers(c: Chunk, a: nat) { c.offset <= a < c.Top() }

  lemma FreeConcat(x: seq<Chunk>, y: seq<Chunk>, a: nat)
    ensures FreeAt(x + y, a) <==> FreeAt(x, a) || FreeAt(y, a)
  {
    if FreeAt(x, a) {
      var i :| 0 <= i < |x| && x[i].offset <= a < x[i].Top();
      assert (x + y)[i] == x[i];
    }
    if FreeAt(y, a) {
      var i :| 0 <= i < |y| && y[i].offset <= a < y[i].Top();
      assert (x + y)[|x| + i] == y[i];
    }
    if FreeAt(x + y, a) {
      var i :| 0 <= i < |x + y| && (x + y)[i].offset <= a < (x + y)[i].Top();
      if i < |x| { assert x[i] == (x + y)[i]; } else { assert y[i - |x|] == (x + y)[i]; }
    }
  }

  lemma FreeOne(c: Chunk, a: nat)
    ensures FreeAt([c], a) <==> Covers(c, a)
  {
    if Covers(c, a) { assert [c][0].offset <= a < [c][0].Top(); }
  }

  // The chunks the region merges with, and what they cover.
  lemma MergedBytes(free: seq<Chunk>, offset: nat, size: nat, a: nat)
    requires Ordered(free) && size > 0 && Apart(free, offset, size)
    ensures Low(free, offset, size) <= High(free, offset, size)
    ensures Covers(Merged(free, offset, size), a)
            <==> FreeAt(free[Low(free, offset, size)..High(free, offset, size)], a) || offset <= a < offset + size
  {
    var k := Position(free, offset + size);
    var middle := free[Low(free, offset, size)..High(free, offset, size)];
    if MergesDown(free, offset, size) && MergesUp(free, offset, size) {
      assert middle == [free[k - 1]] + [free[k]];
      FreeConcat([free[k - 1]], [free[k]], a);
      FreeOne(free[k - 1], a);
      FreeOne(free[k], a);
    } else if MergesDown(free, offset, size) {
      assert middle == [free[k - 1]];
      FreeOne(free[k - 1], a);
    } else if MergesUp(free, offset, size) {
      assert middle == [free[k]];
      FreeOne(free[k], a);
    }
  }

  lemma ReleasedBytes(free: seq<Chunk>, offset: nat, size: nat, a: nat)
    requires Ordered(free) && size > 0 && Apart(free, offset, size)
    ensures FreeAt(Released(free, offset, size), a) <==> FreeAt(free, a) || (offset <= a < offset + size)
  {
    MergedBytes(free, offset, size, a);
    SplicedBytes(free, Low(free, offset, size), High(free, offset, size), Merged(free, offset, size), a);
  }

  lemma SplicedBytes(free: seq<Chunk>, lo: nat, hi: nat, c: Chunk, a: nat)
    requires lo <= hi <= |free|
    ensures FreeAt(free[..lo] + [c] + free[hi..], a) <==> FreeAt(free[..lo], a) || Covers(c, a) || FreeAt(free[hi..], a)
    ensures FreeAt(free, a) <==> FreeAt(free[..lo], a) || FreeAt(free[lo..hi], a) || FreeAt(free[hi..], a)
  {
    Three(free[..lo], [c], free[hi..], a);
    FreeOne(c, a);
    assert free == free[..lo] + free[lo..hi] + free[hi..];
    Three(free[..lo], free[lo..hi], free[hi..], a);
  }

  // Giving back a region that was in use frees exactly its bytes and keeps the list coalesced.
  lemma ReleaseExact(free: seq<Chunk>, offset: nat, size: nat)
    requires Coalesced(free) && size > 0 && offset + size <= RESERVE && Apart(free, offset, size)
    ensures Coalesced(Released(free, offset, size))
    ensures forall a: nat :: FreeAt(Released(free, offset, size), a) <==> FreeAt(free, a) || (offset <= a < offset + size)
  {
    forall a: nat ensures FreeAt(Released(free, offset, size), a) <==> FreeAt(free, a) || (offset <= a < offset + size) {
      ReleasedBytes(free, offset, size, a);
    }
    ReleasedCoalesced(free, offset, size);
  }

  lemma MergedFits(free: seq<Chunk>, offset: nat, size: nat)
    requires Coalesced(free) && size > 0 && offset + size <= RESERVE && Apart(free, offset, size)
    ensures Fits(free, Low(free, offset, size), High(free, offset, size), Merged(free, offset, size))
  {
    var lo, k := Low(free, offset, size), Position(free, offset + size);
    forall i | 0 <= i < lo ensures free[i].Top() < Merged(free, offset, size).offset {
      assert free[i].Top() <= offset;
      assert i == k - 1 ==> !MergesDown(free, offset, size);
    }
  }

  // The chunk keeps its distance from the chunks before `lo` and from `hi` on.
  ghost predicate Fits(free: seq<Chunk>, lo: nat, hi: nat, c: Chunk) {
    && lo <= hi <= |free| && c.size > 0 && c.Top() <= RESERVE
    && (forall i :: 0 <= i < lo ==> free[i].Top() < c.offset)
    && (forall i :: hi <= i < |free| ==> c.Top() < free[i].offset)
  }

  lemma Spliced(free: seq<Chunk>, lo: nat, hi: nat, c: Chunk)
    requires Coalesced(free) && Fits(free, lo, hi, c)
    ensures Coalesced(free[..lo] + [c] + free[hi..])
  {
    var list := free[..lo] + [c] + free[hi..];
    forall i, j | 0 <= i < j < |list| ensures list[i].Top() < list[j].offset {
      if j < lo {
        assert list[i] == free[i] && list[j] == free[j];
      } else if i > lo {
        assert list[i] == free[i - lo - 1 + hi] && list[j] == free[j - lo - 1 + hi];
      } else if i < lo < j {
        assert list[i] == free[i] && list[j] == free[j - lo - 1 + hi];
      } else if i == lo {
        assert list[j] == free[j - lo - 1 + hi];
      } else {
        assert list[i] == free[i];
      }
    }
    forall i | 0 <= i < |list| ensures list[i].size > 0 && list[i].Top() <= RESERVE {
      assert list[i] == if i < lo then free[i] else if i == lo then c else free[i - lo - 1 + hi];
    }
  }

  lemma ReleasedCoalesced(free: seq<Chunk>, offset: nat, size: nat)
    requires Coalesced(free) && size > 0 && offset + size <= RESERVE && Apart(free, offset, size)
    ensures Coalesced(Released(free, offset, size))
  {
    MergedFits(free, offset, size);
    Spliced(free, Low(free, offset, size), High(free, offset, size), Merged(free, offset, size));
  }

  // Without its positive size a region need not merge: then, and only then, giving it back leaves
  // an empty chunk in the list.
  lemma EmptyRegion(free: seq<Chunk>, offset: nat)
    requires Coalesced(free) && offset <= RESERVE
    ensures Coalesced(Released(free, offset, 0)) <==> MergesDown(free, offset, 0) || MergesUp(free, offset, 0)
    ensures Coalesced(Released(free, offset, 0)) ==> Released(free, offset, 0) == free
  {
    var k := Position(free, offset);
    if MergesDown(free, offset, 0) || MergesUp(free, offset, 0) {
      EmptyMerges(free, offset);
    } else {
      assert Released(free, offset, 0) == free[..k] + [Chunk(offset, 0)] + free[k..];
      NotCoalesced(free[..k], Chunk(offset, 0), free[k..]);
    }
  }

  lemma NotCoalesced(x: seq<Chunk>, c: Chunk, y: seq<Chunk>)
    requires c.size == 0
    ensures !Coalesced(x + [c] + y)
  {
    assert (x + [c] + y)[|x|] == c;
  }

  lemma EmptyMerges(free: seq<Chunk>, offset: nat)
    requires Coalesced(free) && (MergesDown(free, offset, 0) || MergesUp(free, offset, 0))
    ensures Released(free, offset, 0) == free
  {
    var k := Position(free, offset);
    if MergesDown(free, offset, 0) {
      assert k < |free| ==> free[k - 1].Top() < free[k].offset;
      assert Merged(free, offset, 0) == free[k - 1];
      assert free == free[..k - 1] + [free[k - 1]] + free[k..];
    } else {
      assert Merged(free, offset, 0) == free[k];
      assert free == free[..k] + [free[k]] + free[k + 1..];
    }
  }

  // From the initial list: a block of size zero is placed at the top, a block of 16 bytes below it,
  // and giving the empty one back lists an empty chunk.
  lemma EmptyRegionExample()
    ensures var whole := [Chunk(0, RESERVE)];
            && Best(whole, 0, 0) && Taken(whole, 0, 0) == whole && whole[0].Top() == RESERVE
            && Best(whole, 16, 0) && Coalesced(Taken(whole, 0, 16))
            && !Coalesced(Released(Taken(whole, 0, 16), RESERVE, 0))
  {
    assert Taken([Chunk(0, RESERVE)], 0, 16) == [Chunk(0, RESERVE - 16)];
    assert Taken([Chunk(0, RESERVE)], 0, 0) == [Chunk(0, RESERVE)];
    EmptyRegion([Chunk(0, RESERVE - 16)], RESERVE);
  }

  // ---------------------------------------------------------------- taking a block

  // The chunk that reaches highest among those that can hold the size.
  ghost predicate Best(free: seq<Chunk>, size: nat, k: nat) {
    && k < |free| && free[k].size >= size
    && forall i :: 0 <= i < |free| && free[i].size >= size ==> free[i].Top() <= free[k].Top()
  }

  function Taken(free: seq<Chunk>, k: nat, size: nat): seq<Chunk>
    requires k < |free| && free[k].size >= size
  {
    if free[k].size == size then free[..k] + free[k + 1..]
    else free[k := Chunk(free[k].offset, free[k].size - size)]
  }

  // The top of the best chunk is the highest place where the block could go at all.
  lemma HighestFit(free: seq<Chunk>, size: nat, k: nat, start: nat)
    requires Coalesced(free) && size > 0 && Best(free, size, k) && AllFree(free, start, size)
    ensures start <= free[k].Top() - size
  {
    var i := RunInOneChunk(free, start, size);
  }

  lemma HighestStart(free: seq<Chunk>, size: nat, k: nat)
    requires Coalesced(free) && size > 0 && Best(free, size, k)
    ensures forall s: nat :: AllFree(free, s, size) ==> s <= free[k].Top() - size
  {
    forall s: nat | AllFree(free, s, size) ensures s <= free[k].Top() - size { HighestFit(free, size, k, s); }
  }

  // Taking a block off the top of a chunk removes exactly the block's bytes.
  lemma TakenExact(free: seq<Chunk>, k: nat, size: nat)
    requires Coalesced(free) && size > 0 && k < |free| && free[k].size >= size
    ensures var start := free[k].Top() - size;
            && Coalesced(Taken(free, k, size)) && AllFree(free, start, size)
            && (forall a: nat :: FreeAt(Taken(free, k, size), a) <==> FreeAt(free, a) && !(start <= a < start + size))
  {
    var start := free[k].Top() - size;
    var after := Taken(free, k, size);
    forall a: nat | start <= a < start + size ensures FreeAt(free, a) { assert free[k].offset <= a < free[k].Top(); }
    forall a: nat ensures FreeAt(after, a) <==> FreeAt(free, a) && !(start <= a < start + size) {
      TakenBytes(free, k, size, a);
    }
    TakenCoalesced(free, k, size);
  }

  // Giving the block back at once restores the very same list.
  lemma TakenThenReleased(free: seq<Chunk>, k: nat, size: nat)
    requires Coalesced(free) && size > 0 && k < |free| && free[k].size >= size
    ensures Coalesced(Taken(free, k, size))
    ensures Released(Taken(free, k, size), free[k].Top() - size, size) == free
  {
    var start := free[k].Top() - size;
    var after := Taken(free, k, size);
    TakenExact(free, k, size);
    TakenCoalesced(free, k, size);
    ReleaseExact(after, start, size);
    Canonical(Released(after, start, size), free);
  }

  lemma TakenCoalesced(free: seq<Chunk>, k: nat, size: nat)
    requires Coalesced(free) && size > 0 && k < |free| && free[k].size >= size
    ensures Coalesced(Taken(free, k, size)) && Apart(Taken(free, k, size), free[k].Top() - size, size)
  {
    var start := free[k].Top() - size;
    if free[k].size == size {
      Removed(free, k);
    } else {
      var c := Chunk(free[k].offset, free[k].size - size);
      Spliced(free, k, k + 1, c);
      PutAt(free, k, c);
      Shrunk(free, k, c, start);
    }
  }

  lemma Shrunk(free: seq<Chunk>, k: nat, c: Chunk, start: nat)
    requires Coalesced(free) && k < |free| && c.Top() <= start <= free[k].Top()
    requires free[k].offset <= start
    ensures Apart(free[k := c], start, free[k].Top() - start)
  {}

  lemma Removed(free: seq<Chunk>, k: nat)
    requires Coalesced(free) && k < |free|
    ensures Coalesced(free[..k] + free[k + 1..]) && Apart(free[..k] + free[k + 1..], free[k].offset, free[k].size)
  {
    var list := free[..k] + free[k + 1..];
    forall i | 0 <= i < |list| ensures list[i] == free[if i < k then i else i + 1] {}
  }

  lemma TakenBytes(free: seq<Chunk>, k: nat, size: nat, a: nat)
    requires Coalesced(free) && size > 0 && k < |free| && free[k].size >= size
    ensures FreeAt(Taken(free, k, size), a) <==> FreeAt(free, a) && !(free[k].Top() - size <= a < free[k].Top())
  {
    TakenParts(free, k, size);
    var rest := if free[k].size == size then [] else [Chunk(free[k].offset, free[k].size - size)];
    Three(free[..k], [free[k]], free[k + 1..], a);
    Three(free[..k], rest, free[k + 1..], a);
    FreeOne(free[k], a);
    if rest != [] { FreeOne(rest[0], a); }
    Beside(free, k, a);
  }

  lemma TakenParts(free: seq<Chunk>, k: nat, size: nat)
    requires size > 0 && k < |free| && free[k].size >= size
    ensures free == free[..k] + [free[k]] + free[k + 1..]
    ensures Taken(free, k, size)
         == free[..k] + (if free[k].size == size then [] else [Chunk(free[k].offset, free[k].size - size)]) + free[k + 1..]
  {}

  lemma Three(x: seq<Chunk>, y: seq<Chunk>, z: seq<Chunk>, a: nat)
    ensures FreeAt(x + y + z, a) <==> FreeAt(x, a) || FreeAt(y, a) || FreeAt(z, a)
  {
    FreeConcat(x + y, z, a);
    FreeConcat(x, y, a);
  }

  lemma Beside(free: seq<Chunk>, k: nat, a: nat)
    requires Coalesced(free) && k < |free|
    ensures FreeAt(free[..k], a) ==> a < free[k].offset
    ensures FreeAt(free[k + 1..], a) ==> a >= free[k].Top()
  {}

  // ---------------------------------------------------------------- blocks

  ghost predicate LiveAt(live: map<nat, nat>, a: nat) { exists s :: s in live && s <= a < s + live[s] }

  // Free chunks and live blocks tile the reserve: each byte is in a chunk or in one block.
  ghost predicate Tiles(free: seq<Chunk>, live: map<nat, nat>) {
    && (forall s :: s in live ==> live[s] > 0 && s + live[s] <= RESERVE)
    && (forall s, t :: s in live && t in live && s != t ==> s + live[s] <= t || t + live[t] <= s)
    && (forall a: nat :: a < RESERVE ==> (FreeAt(free, a) <==> !LiveAt(live, a)))
  }

  // With no block left the list is the one chunk it started with.
  lemma AllReturned(free: seq<Chunk>)
    requires Coalesced(free) && Tiles(free, map[])
    ensures free == [Chunk(0, RESERVE)]
  {
    var whole := [Chunk(0, RESERVE)];
    forall a: nat ensures FreeAt(free, a) <==> FreeAt(whole, a) {
      FreeOne(whole[0], a);
      if a < RESERVE { assert !LiveAt(map[], a); }
    }
    Canonical(free, whole);
  }

  // A live block's bytes are not free.
  lemma LiveApart(free: seq<Chunk>, live: map<nat, nat>, start: nat)
    requires Coalesced(free) && Tiles(free, live) && start in live
    ensures Apart(free, start, live[start])
  {
    forall i | 0 <= i < |free| ensures free[i].Top() <= start || start + live[start] <= free[i].offset {
      var a := if free[i].offset <= start then start else free[i].offset;
      if !(free[i].Top() <= start || start + live[start] <= free[i].offset) {
        assert free[i].offset <= a < free[i].Top();
        assert FreeAt(free, a) && LiveAt(live, a);
      }
    }
  }

  lemma TilesWith(free: seq<Chunk>, after: seq<Chunk>, live: map<nat, nat>, start: nat, size: nat)
    requires Tiles(free, live) && size > 0 && start + size <= RESERVE && AllFree(free, start, size)
    requires forall a: nat :: FreeAt(after, a) <==> FreeAt(free, a) && !(start <= a < start + size)
    ensures start !in live && Tiles(after, live[start := size])
  {
    assert FreeAt(free, start);
    assert start in live ==> LiveAt(live, start);
    var live' := live[start := size];
    forall s | s in live ensures s + live[s] <= start || start + size <= s {
      var a := if s <= start then start else s;
      assert s <= a < s + live[s] ==> LiveAt(live, a);
      assert start <= a < start + size ==> FreeAt(free, a);
    }
    forall a: nat | a < RESERVE ensures FreeAt(after, a) <==> !LiveAt(live', a) {
      LiveWith(live, start, size, a);
    }
  }

  lemma LiveWith(live: map<nat, nat>, start: nat, size: nat, a: nat)
    requires start !in live
    ensures LiveAt(live[start := size], a) <==> LiveAt(live, a) || start <= a < start + size
  {
    var live' := live[start := size];
    if LiveAt(live, a) {
      var s :| s in live && s <= a < s + live[s];
      assert s in live' && s <= a < s + live'[s];
    }
    if start <= a < start + size { assert start in live' && start <= a < start + live'[start]; }
  }

  lemma TilesWithout(free: seq<Chunk>, after: seq<Chunk>, live: map<nat, nat>, start: nat)
    requires Tiles(free, live) && start in live
    requires forall a: nat :: FreeAt(after, a) <==> FreeAt(free, a) || start <= a < start + live[start]
    ensures Tiles(after, live - {start})
  {
    var rest := live - {start};
    assert rest[start := live[start]] == live;
    forall a: nat | a < RESERVE ensures FreeAt(after, a) <==> !LiveAt(rest, a) {
      LiveWith(rest, start, live[start], a);
      if LiveAt(rest, a) { var s :| s in rest && s <= a < s + rest[s]; assert s in live; }
    }
  }

  // Drops the chunk when nothing remains of it, else shrinks it in place.
  function Cut(free: seq<Chunk>, k: nat, remaining: nat): seq<Chunk>
    requires k < |free|
  {
    if remaining == 0 then free[..k] + free[k + 1..] else free[k := Chunk(free[k].offset, remaining)]
  }

  // The new block lies where no higher run of free bytes could hold it.
  ghost predicate Carved(free: seq<Chunk>, live: map<nat, nat>, start: nat, size: nat, after: map<nat, nat>) {
    && AllFree(free, start, size) && (forall s: nat :: AllFree(free, s, size) ==> s <= start)
    && start !in live && after == live[start := size]
  }

  lemma CarveOk(free: seq<Chunk>, live: map<nat, nat>, k: nat, size: nat)
    requires Coalesced(free) && Tiles(free, live) && Best(free, size, k)
    ensures var start := free[k].Top() - size;
            var after := Cut(free, k, start - free[k].offset);
            if size == 0 then after == free
            else Carved(free, live, start, size, live[start := size])
                 && Coalesced(after) && Tiles(after, live[start := size])
  {
    if size > 0 {
      var start := free[k].Top() - size;
      HighestStart(free, size, k);
      TakenExact(free, k, size);
      TilesWith(free, Taken(free, k, size), live, start, size);
      assert Cut(free, k, start - free[k].offset) == Taken(free, k, size);
    }
  }

  class TlsLayoutAllocator {
    var free: seq<Chunk>
    // The blocks handed out and not given back: start in the reserve, and size.
    ghost var live: map<nat, nat>

    ghost predicate Valid()
      reads this
    {
      Coalesced(free) && Tiles(free, live)
    }

    constructor ()
      ensures Valid() && live == map[] && free == [Chunk(0, RESERVE)]
    {
      free, live := [Chunk(0, RESERVE)], map[];
      forall a: nat ensures FreeAt([Chunk(0, RESERVE)], a) <==> a < RESERVE { FreeOne(Chunk(0, RESERVE), a); }
    }

    // A block goes to the highest run of free bytes that holds it, and is refused only when
    // there is none. The result is an offset from the top of the reserve.
    method AllocateBlock(blockSize: nat, alignment: nat) returns (offset: Option<int>)
      requires Valid() && alignment > 0
      modifies this
      ensures Valid()
      ensures var size := RoundUp(blockSize, alignment);
        size > 0 ==>
          && (offset.None? ==> free == old(free) && live == old(live) && forall s: nat :: !AllFree(old(free), s, size))
          && (offset.Some? ==>
                && 0 <= offset.value + RESERVE < RESERVE
                && Carved(old(free), old(live), offset.value + RESERVE, size, live))
      ensures RoundUp(blockSize, alignment) == 0 ==> free == old(free) && live == old(live)
      ensures RoundUp(blockSize, alignment) == 0 ==>
        if old(free) == [] then offset == None
        else offset.Some? && exists k: nat :: Best(old(free), 0, k) && offset.value + RESERVE == old(free)[k].Top()
    {
      var size := RoundUp(blockSize, alignment);
      var best := Highest(size);
      if best.None? {
        forall s: nat | size > 0 ensures !AllFree(free, s, size) {
          if AllFree(free, s, size) { var i := RunInOneChunk(free, s, size); }
        }
        assert free != [] ==> free[0].size < size;
        return None;
      }
      ghost var before := free;
      assert Best(before, size, best.value);
      var start := Carve(best.value, size);
      return Some(start - RESERVE);
    }

    // Cuts the block off the top of its chunk.
    method Carve(k: nat, size: nat) returns (start: nat)
      requires Valid() && Best(free, size, k)
      modifies this
      ensures Valid() && start == old(free[k].Top()) - size && start + size <= RESERVE
      ensures size > 0 ==> Carved(old(free), old(live), start, size, live)
      ensures size == 0 ==> free == old(free) && live == old(live)
    {
      start := free[k].Top() - size;
      ghost var before, after := free, Cut(free, k, start - free[k].offset);
      CarveOk(before, live, k, size);
      free := Cut(free, k, start - free[k].offset);
      assert free == after;
      live := if size > 0 then live[start := size] else live;
    }

    // The last of the highest-reaching chunks that are large enough.
    method Highest(size: nat) returns (best: Option<nat>)
      ensures best.None? ==> forall i :: 0 <= i < |free| ==> free[i].size < size
      ensures best.Some? ==> Best(free, size, best.value)
    {
      best := None;
      var i := 0;
      while i < |free|
        invariant i <= |free|
        invariant best.None? ==> forall j :: 0 <= j < i ==> free[j].size < size
        invariant best.Some? ==> best.value < i && free[best.value].size >= size
        invariant best.Some? ==> forall j :: 0 <= j < i && free[j].size >= size ==> free[j].Top() <= free[best.value].Top()
      {
        if free[i].size >= size && (best.None? || free[i].Top() >= free[best.value].Top()) {
          best := Some(i);
        }
        i := i + 1;
      }
    }

    method DeallocateBlock(offset: int, blockSize: nat, alignment: nat)
      requires Coalesced(free) && alignment > 0 && 0 <= offset + RESERVE <= RESERVE
      modifies this
      ensures var region, size := offset + RESERVE, RoundUp(blockSize, alignment);
        && free == Released(old(free), region, size)
        && (old(Valid()) && region in old(live) && old(live)[region] == size
            ==> Valid() && live == old(live) - {region})
    {
      var region, size := offset + RESERVE, RoundUp(blockSize, alignment);
      if Valid() && region in live && live[region] == size {
        LiveApart(free, live, region);
        ReleaseExact(free, region, size);
        TilesWithout(free, Released(free, region, size), live, region);
        live := live - {region};
      }
      Release(region, size);
    }

    method FirstPast(end: nat) returns (next: nat)
      ensures next == Position(free, end)
    {
      next := 0;
      while next < |free| && free[next].offset < end
        invariant next <= |free| && forall i :: 0 <= i < next ==> free[i].offset < end
      {
        next := next + 1;
      }
      PositionUnique(free, end, next);
    }

    // Merges the region with the neighbours it touches, or lists it between them.
    method Release(offset: nat, size: nat)
      requires Coalesced(free)
      modifies this`free
      ensures free == Released(old(free), offset, size)
    {
      var next := FirstPast(offset + size);
      SpliceIsReleased(free, offset, size);
      free := Splice(free, next, offset, size);
    }
  }

  // The program's cases at the position found.
  function Splice(free: seq<Chunk>, next: nat, offset: nat, size: nat): seq<Chunk>
    requires Ordered(free) && next <= |free|
  {
    var mergePrev := next > 0 && free[next - 1].Top() == offset;
    var mergeNext := next < |free| && free[next].offset == offset + size;
    if mergePrev && mergeNext then
      var joined := free[next - 1 := Chunk(free[next - 1].offset, free[next].Top() - free[next - 1].offset)];
      joined[..next] + joined[next + 1..]
    else if mergePrev then
      free[next - 1 := Chunk(free[next - 1].offset, free[next - 1].size + size)]
    else if mergeNext then
      free[next := Chunk(offset, free[next].size + size)]
    else
      free[..next] + [Chunk(offset, size)] + free[next..]
  }

  predicate TouchesDown(free: seq<Chunk>, k: nat, offset: nat) { 0 < k <= |free| && free[k - 1].Top() == offset }
  predicate TouchesUp(free: seq<Chunk>, k: nat, end: nat) { k < |free| && free[k].offset == end }

  // The four cases of the program each replace the touching neighbours by one chunk.
  lemma SpliceBoth(free: seq<Chunk>, k: nat, offset: nat, size: nat)
    requires Ordered(free) && TouchesDown(free, k, offset) && TouchesUp(free, k, offset + size)
    ensures Splice(free, k, offset, size)
            == Around(free, k - 1, k + 1, Chunk(free[k - 1].offset, free[k].Top() - free[k - 1].offset))
  {
    JoinTwo(free, k, Chunk(free[k - 1].offset, free[k].Top() - free[k - 1].offset));
  }

  lemma SpliceDown(free: seq<Chunk>, k: nat, offset: nat, size: nat)
    requires Ordered(free) && TouchesDown(free, k, offset) && !TouchesUp(free, k, offset + size)
    ensures Splice(free, k, offset, size) == Around(free, k - 1, k, Chunk(free[k - 1].offset, free[k - 1].size + size))
  {
    PutAt(free, k - 1, Chunk(free[k - 1].offset, free[k - 1].size + size));
  }

  lemma SpliceUp(free: seq<Chunk>, k: nat, offset: nat, size: nat)
    requires Ordered(free) && !TouchesDown(free, k, offset) && TouchesUp(free, k, offset + size)
    ensures Splice(free, k, offset, size) == Around(free, k, k + 1, Chunk(offset, free[k].size + size))
  {
    PutAt(free, k, Chunk(offset, free[k].size + size));
  }

  lemma SpliceIsReleased(free: seq<Chunk>, offset: nat, size: nat)
    requires Ordered(free)
    ensures Splice(free, Position(free, offset + size), offset, size) == Released(free, offset, size)
  {
    var k := Position(free, offset + size);
    var lo, hi, c := Low(free, offset, size), High(free, offset, size), Merged(free, offset, size);
    if TouchesDown(free, k, offset) && TouchesUp(free, k, offset + size) {
      SpliceBoth(free, k, offset, size);
      assert lo == k - 1 && hi == k + 1 && c == Chunk(free[k - 1].offset, free[k].Top() - free[k - 1].offset);
    } else if TouchesDown(free, k, offset) {
      SpliceDown(free, k, offset, size);
      assert lo == k - 1 && hi == k && c == Chunk(free[k - 1].offset, free[k - 1].size + size);
    } else if TouchesUp(free, k, offset + size) {
      SpliceUp(free, k, offset, size);
      assert lo == k && hi == k + 1 && c == Chunk(offset, free[k].size + size);
    } else {
      assert lo == k && hi == k && c == Chunk(offset, size);
    }
  }

  lemma PutAt(free: seq<Chunk>, k: nat, c: Chunk)
    requires k < |free|
    ensures free[k := c] == free[..k] + [c] + free[k + 1..]
  {}

  lemma JoinTwo(free: seq<Chunk>, k: nat, c: Chunk)
    requires 0 < k < |free|
    ensures free[k - 1 := c][..k] + free[k - 1 := c][k + 1..] == free[..k - 1] + [c] + free[k + 1..]
  {
    assert free[k - 1 := c][..k] == free[..k - 1] + [c];
    assert free[k - 1 := c][k + 1..] == free[k + 1..];
  }

  // The first position from which offsets reach `end` is the only one.
  lemma {:induction false} PositionUnique(free: seq<Chunk>, end: nat, k: nat)
    requires k <= |free| && (k < |free| ==> free[k].offset >= end)
    requires forall i :: 0 <= i < k ==> free[i].offset < end
    ensures Position(free, end) == k
  {
    if k > 0 {
      assert free[0].offset < end;
      PositionUnique(free[1..], end, k - 1);
    }
  }
}
