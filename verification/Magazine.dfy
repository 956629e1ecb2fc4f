/** A thread's cached slots. Every size class has a window of one shared buffer, laid out by
    prefix sums; a magazine is that window with a count, drawn from at random. */
module Magazines {
  import opened Arithmetic
  import opened Wrappers
  import opened SizeClasses

  const MAX_CAPACITY: nat := 64
  const MIN_CAPACITY: nat := 8
  const MAX_BYTES: nat := 4096
  const ENTRY_LIMIT: nat := 0x1_0000

  function CapacityFor(size: nat): (c: nat)
    requires size > 0
    ensures MIN_CAPACITY <= c <= MAX_CAPACITY
  {
    Clamp(MAX_BYTES / size, MIN_CAPACITY, MAX_CAPACITY)
  }

  // As many slots as fit in 4096 bytes, but at least 8 and at most 64.
  lemma CapacityFills(size: nat)
    requires size > 0
    ensures var c := CapacityFor(size);
            (c < 64 ==> 4096 < size * (c + 1)) && (c > 8 ==> size * c <= 4096) && 8 <= c <= 64
  {
    var q, c := MAX_BYTES / size, CapacityFor(size);
    assert size * q <= MAX_BYTES < size * q + size == size * (q + 1);
    if q <= c { Times(size, q + 1, c + 1); }
    if c <= q { Times(size, c, q); }
  }

  function LowWaterFor(capacity: nat): (n: nat)
    ensures 4 * n <= capacity < 4 * n + 4
  {
    capacity / 4
  }

  datatype Layout = Layout(capacity: nat, lowWater: nat, offset: nat)

  predicate Capacities(caps: seq<nat>) { forall c :: 0 <= c < |caps| ==> MIN_CAPACITY <= caps[c] <= MAX_CAPACITY }

  // The entries all classes before `c` take up.
  function Before(caps: seq<nat>, c: nat): (n: nat)
    requires Capacities(caps) && c <= |caps|
  {
    if c == 0 then 0 else Before(caps, c - 1) + caps[c - 1]
  }

  function CapacitiesFor(sizes: seq<nat>): (caps: seq<nat>)
    requires forall c :: 0 <= c < |sizes| ==> sizes[c] > 0
    ensures |caps| == |sizes| && Capacities(caps)
  {
    if sizes == [] then []
    else CapacitiesFor(sizes[..|sizes| - 1]) + [CapacityFor(sizes[|sizes| - 1])]
  }

  lemma {:induction false} CapacityAt(sizes: seq<nat>, c: nat)
    requires c < |sizes| && forall d :: 0 <= d < |sizes| ==> sizes[d] > 0
    ensures CapacitiesFor(sizes)[c] == CapacityFor(sizes[c])
  {
    if c < |sizes| - 1 { CapacityAt(sizes[..|sizes| - 1], c); }
  }

  lemma {:induction false} BeforeBound(caps: seq<nat>, c: nat)
    requires Capacities(caps) && c <= |caps|
    ensures Before(caps, c) <= c * MAX_CAPACITY
  {
    if c > 0 { BeforeBound(caps, c - 1); }
  }

  // For the program's 48 classes the 16-bit offset never overflows.
  lemma OffsetsFit(caps: seq<nat>, c: nat)
    requires Capacities(caps) && c <= |caps| <= COUNT
    ensures Before(caps, c) < ENTRY_LIMIT
  {
    BeforeBound(caps, c);
  }

  function RowAt(caps: seq<nat>, c: nat): Layout
    requires Capacities(caps) && c < |caps|
  {
    Layout(caps[c], LowWaterFor(caps[c]), Before(caps, c))
  }

  // One row of the layout table.
  method Row(sizes: seq<nat>, index: nat, offset: nat) returns (row: Layout)
    requires index < |sizes| && forall c :: 0 <= c < |sizes| ==> sizes[c] > 0
    requires offset == Before(CapacitiesFor(sizes), index)
    ensures row == RowAt(CapacitiesFor(sizes), index)
  {
    var capacity := CapacityFor(sizes[index]);
    CapacityAt(sizes, index);
    row := Layout(capacity, LowWaterFor(capacity), offset);
  }

  // The filling loop of the layout table.
  method BuildLayout(sizes: seq<nat>) returns (layout: array<Layout>, total: nat)
    requires 0 < |sizes| && forall c :: 0 <= c < |sizes| ==> sizes[c] > 0
    ensures fresh(layout) && layout.Length == |sizes|
    ensures var caps := CapacitiesFor(sizes);
            forall c :: 0 <= c < |sizes| ==> layout[c] == RowAt(caps, c)
    ensures total == Before(CapacitiesFor(sizes), |sizes|)
  {
    ghost var caps := CapacitiesFor(sizes);
    layout := new Layout[|sizes|];
    var offset, index := 0, 0;
    while index < |sizes|
      invariant index <= |sizes| && offset == Before(caps, index)
      invariant forall c :: 0 <= c < index ==> layout[c] == RowAt(caps, c)
    {
      var row := Row(sizes, index, offset);
      layout[index] := row;
      offset := offset + row.capacity;
      index := index + 1;
    }
    total := layout[|sizes| - 1].offset + layout[|sizes| - 1].capacity;
  }

  // The windows of two classes never overlap, and all lie inside the buffer.
  lemma {:induction false} WindowsDisjoint(caps: seq<nat>, c: nat, d: nat)
    requires Capacities(caps) && c < d <= |caps|
    ensures Before(caps, c) + caps[c] <= Before(caps, d)
    decreases d - c
  {
    if c + 1 < d { WindowsDisjoint(caps, c, d - 1); }
  }

  // The bounded draw: a 16-bit chunk scaled to the bound never reaches it.
  function IndexBelow(chunk: nat, bound: nat): (i: nat)
    requires chunk < 0x1_0000 && bound > 0
    ensures i < bound
  {
    Times(bound, chunk + 1, 0x1_0000);
    chunk * bound / 0x1_0000
  }

  // Every index is drawn for some chunk, as long as there are no more entries than chunks; a larger
  // chunk never draws a smaller index.
  lemma DrawCovers(bound: nat, i: nat) returns (chunk: nat)
    requires i < bound <= 0x1_0000
    ensures chunk < 0x1_0000 && IndexBelow(chunk, bound) == i
  {
    // The least chunk whose product with the bound reaches i * 2^16.
    chunk := (i * 0x1_0000 + bound - 1) / bound;
    var n := i * 0x1_0000 + bound - 1;
    assert n == bound * chunk + n % bound;
    assert i * 0x1_0000 <= bound * chunk < i * 0x1_0000 + bound;
    Times(0x1_0000, i + 1, bound);
    QuotientBelow(n, bound, 0x1_0000);
    assert bound * chunk == chunk * bound;
    DivModUnique(chunk * bound, 0x1_0000, i, chunk * bound - i * 0x1_0000);
  }

  lemma DrawMonotone(chunk: nat, later: nat, bound: nat)
    requires chunk <= later < 0x1_0000 && bound > 0
    ensures IndexBelow(chunk, bound) <= IndexBelow(later, bound)
  {
    Times(bound, chunk, later);
    var a, b := chunk * bound, later * bound;
    assert a <= b;
  }

  class Magazine<T(0)> {
    const view: array<T>
    var count: nat
    const lowWater: nat

    ghost predicate Valid()
      reads this
    {
      count <= view.Length && lowWater < view.Length
    }

    ghost function Contents(): seq<T>
      requires Valid()
      reads this, view
    {
      view[..count]
    }

    constructor (capacity: nat)
      requires MIN_CAPACITY <= capacity <= MAX_CAPACITY
      ensures Valid() && fresh(view) && view.Length == capacity && lowWater == LowWaterFor(capacity) && Contents() == []
    {
      view := new T[capacity];
      count, lowWater := 0, LowWaterFor(capacity);
    }

    function Remaining(): nat
      requires Valid()
      reads this
    {
      view.Length - count
    }

    // Takes the slot the draw picks and lets the top slot fill the hole.
    method DrawRandom(chunk: nat) returns (slot: Option<T>)
      requires Valid() && chunk < 0x1_0000
      modifies this`count, view
      ensures Valid()
      ensures if old(Contents()) == [] then slot == None && Contents() == []
              else var before, index := old(Contents()), IndexBelow(chunk, |old(Contents())|);
                   && slot == Some(before[index])
                   && Contents() == before[index := before[|before| - 1]][..|before| - 1]
    {
      if count == 0 {
        return None;
      }
      var index := IndexBelow(chunk, count);
      var chosen := view[index];
      count := count - 1;
      view[index] := view[count];
      slot := Some(chosen);
    }

    method PopAbove(threshold: nat) returns (slot: Option<T>)
      requires Valid()
      modifies this`count
      ensures Valid()
      ensures if |old(Contents())| <= threshold then slot == None && Contents() == old(Contents())
              else slot.Some? && old(Contents()) == Contents() + [slot.value]
    {
      if count > threshold {
        count := count - 1;
        slot := Some(view[count]);
      } else {
        slot := None;
      }
    }

    method TryPush(slot: T) returns (pushed: bool)
      requires Valid()
      modifies this`count, view
      ensures Valid() && pushed == (|old(Contents())| < view.Length)
      ensures Contents() == if pushed then old(Contents()) + [slot] else old(Contents())
    {
      if count == view.Length {
        return false;
      }
      view[count] := slot;
      count := count + 1;
      pushed := true;
    }

    // Stages claimed slots; the caller promises that they fit, so none is dropped.
    method Refill(slots: seq<T>)
      requires Valid() && |slots| <= Remaining()
      modifies this`count, view
      ensures Valid() && Contents() == old(Contents()) + slots
    {
      var i := 0;
      while i < |slots|
        invariant i <= |slots| && Valid() && Contents() == old(Contents()) + slots[..i]
      {
        var pushed := TryPush(slots[i]);
        assert pushed;
        assert slots[..i + 1] == slots[..i] + [slots[i]];
        i := i + 1;
      }
      assert slots[..i] == slots;
    }
  }

  // A draw removes one entry and keeps the others, whatever the order.
  lemma DrawKeepsOthers<T>(before: seq<T>, index: nat)
    requires index < |before|
    ensures var after := before[index := before[|before| - 1]][..|before| - 1];
            multiset(before) == multiset(after) + multiset{before[index]}
  {
    var last := |before| - 1;
    var filled := before[index := before[last]];
    assert before == before[..last] + [before[last]];
    assert filled == filled[..last] + [before[last]];
    if index < last {
      assert filled[..last] == before[..last][index := before[last]];
    } else {
      assert filled == before;
    }
  }
}
