/** Class windows and the window directory: 16 GB slices of address space, each carved into
    equally spaced spans of one size class, found again from any pointer by shifts. */
module Windows {
  import opened Arithmetic
  import opened Wrappers
  import opened SizeClasses

  const SIZE_SHIFT: nat := 34
  const WINDOW_SIZE: nat := 0x4_0000_0000
  const SLOT_COUNT: nat := 0x2000

  function ShiftRight(x: nat, k: nat): nat { Div(x, Pow2(k)) }

  // The trailing zeros of a power of two.
  function Log2(p: nat): nat
    requires IsPowerOfTwo(p)
  {
    if p == 1 then 0 else 1 + Log2(p / 2)
  }

  lemma {:induction false} Log2Exact(p: nat)
    requires IsPowerOfTwo(p)
    ensures Pow2(Log2(p)) == p
  {
    if p > 1 { Log2Exact(p / 2); }
  }

  /** What routing needs to know of a class. `length` is the span's data, without padding. */
  datatype Geometry = Geometry(size: nat, slots: nat, length: nat, strideShift: nat)

  function GeometryOf(c: nat): Geometry
    requires c < COUNT
  {
    NextIsPower(SpanLength(c));
    Geometry(Size(c), SlotsPerSpan(c), SpanLength(c), Log2(NextPowerOfTwo(SpanLength(c))))
  }

  function Stride(g: Geometry): (s: nat)
    ensures s > 0
  {
    Pow2(g.strideShift)
  }

  function MaxSpans(g: Geometry): nat { ShiftRight(WINDOW_SIZE, g.strideShift) }

  // What the shift and the multiply rely on: slots fill the span, the span fits its stride, the
  // stride divides the window, and no offset is too large for the reciprocal.
  ghost predicate Routable(g: Geometry) {
    && g.size >= 16 && g.slots > 0 && g.length == g.size * g.slots && g.length <= 0x10_0000 && g.size <= MAX_SIZE
    && g.length <= Stride(g) && IsPowerOfTwo(Stride(g)) && Stride(g) <= WINDOW_SIZE
  }

  // The stride is less than twice the span's data: the next power of two and no larger one.
  lemma StrideTight(c: nat)
    requires c < COUNT
    ensures Stride(GeometryOf(c)) < 2 * SpanLength(c)
  {
    SpanBounds(c);
    NextIsPower(SpanLength(c));
    Log2Exact(NextPowerOfTwo(SpanLength(c)));
  }

  // The directory covers the 47-bit address space and nothing beyond.
  lemma DirectoryCovers()
    ensures SLOT_COUNT * WINDOW_SIZE == 0x8000_0000_0000
  {}

  lemma TableRoutable(c: nat)
    requires c < COUNT
    ensures Routable(GeometryOf(c)) && GeometryOf(c).size % 16 == 0 && Stride(GeometryOf(c)) == NextPowerOfTwo(SpanLength(c))
  {
    Table(c);
    SpanBounds(c);
    NextIsPower(SpanLength(c));
    Log2Exact(NextPowerOfTwo(SpanLength(c)));
  }

  lemma WindowIsPower()
    ensures IsPowerOfTwo(WINDOW_SIZE)
  {
    assert IsPowerOfTwo(0x400);
    assert IsPowerOfTwo(0x40_0000);
  }

  lemma WindowShift()
    ensures Pow2(SIZE_SHIFT) == WINDOW_SIZE
  {
    assert Pow2(8) == 256 && Pow2(16) == 0x1_0000;
    assert Pow2(24) == 0x100_0000;
    assert Pow2(32) == 0x1_0000_0000;
  }

  lemma SpansFill(g: Geometry)
    requires Routable(g)
    ensures WINDOW_SIZE == Stride(g) * MaxSpans(g)
  {
    WindowIsPower();
    PowersDivide(Stride(g), WINDOW_SIZE);
  }

  /** A published window: its base address and its class's geometry. */
  datatype Window = Window(base: nat, geometry: Geometry)

  ghost predicate WindowOk(w: Window) {
    Routable(w.geometry) && 0 < w.base && w.base % WINDOW_SIZE == 0
  }

  function SpanAddress(w: Window, span: nat): nat { w.base + span * Stride(w.geometry) }

  function SlotAddress(w: Window, span: nat, slot: nat): nat { SpanAddress(w, span) + slot * w.geometry.size }

  function SpanNumber(w: Window, pointer: nat): nat
    requires pointer >= w.base
  {
    ShiftRight(pointer - w.base, w.geometry.strideShift)
  }

  // The slot of a pointer, from its offset into the span's data.
  function SlotOf(w: Window, span: nat, pointer: nat): nat
    requires w.geometry.size > 0 && pointer >= SpanAddress(w, span)
  {
    SlotIndexRaw(w.geometry.size, pointer - SpanAddress(w, span))
  }

  ghost predicate IsByte(w: Window, span: nat, slot: nat, byte: nat) {
    WindowOk(w) && span < MaxSpans(w.geometry) && slot < w.geometry.slots && byte < w.geometry.size
  }

  // From any byte of any slot the shifts and the reciprocal multiply recover window, span and slot.
  lemma PointerRoundTrip(w: Window, span: nat, slot: nat, byte: nat)
    requires IsByte(w, span, slot, byte)
    ensures var pointer := SlotAddress(w, span, slot) + byte;
            && w.base <= pointer < w.base + WINDOW_SIZE
            && SpanNumber(w, pointer) == span
            && SlotOf(w, span, pointer) == slot
            && pointer / WINDOW_SIZE == w.base / WINDOW_SIZE
  {
    var g := w.geometry;
    OffsetInSpan(g, slot, byte);
    SlotFound(g, slot, byte);
    InWindow(w, span, slot * g.size + byte);
  }

  lemma InWindow(w: Window, span: nat, offset: nat)
    requires WindowOk(w) && span < MaxSpans(w.geometry) && offset < w.geometry.length
    ensures var pointer := SpanAddress(w, span) + offset;
            && w.base <= pointer < w.base + WINDOW_SIZE
            && SpanNumber(w, pointer) == span
            && pointer / WINDOW_SIZE == w.base / WINDOW_SIZE
  {
    var g := w.geometry;
    SpanFound(g, span, offset);
    SpansFill(g);
    Times(Stride(g), span + 1, MaxSpans(g));
    SliceOf(w.base, SpanAddress(w, span) + offset);
  }

  lemma OffsetInSpan(g: Geometry, slot: nat, byte: nat)
    requires Routable(g) && slot < g.slots && byte < g.size
    ensures slot * g.size + byte < g.length
  {
    Times(g.size, slot + 1, g.slots);
  }

  lemma SpanFound(g: Geometry, span: nat, offset: nat)
    requires offset < Stride(g)
    ensures (span * Stride(g) + offset) / Pow2(g.strideShift) == span
  {
    DivModUnique(span * Stride(g) + offset, Stride(g), span, offset);
  }

  lemma SlotFound(g: Geometry, slot: nat, byte: nat)
    requires Routable(g) && slot < g.slots && byte < g.size
    ensures SlotIndexRaw(g.size, slot * g.size + byte) == slot
  {
    OffsetInSpan(g, slot, byte);
    Product(slot * g.size + byte, ReciprocalError(g.size));
    ReciprocalDivides(g.size, slot * g.size + byte);
    DivModUnique(slot * g.size + byte, g.size, slot, byte);
  }

  // Two different slots, in whatever spans and windows, share no byte.
  lemma SlotsDisjoint(w: Window, span: nat, slot: nat, byte: nat, w': Window, span': nat, slot': nat, byte': nat)
    requires IsByte(w, span, slot, byte) && IsByte(w', span', slot', byte')
    requires w.base == w'.base ==> w == w'
    requires (w, span, slot) != (w', span', slot')
    ensures SlotAddress(w, span, slot) + byte != SlotAddress(w', span', slot') + byte'
  {
    PointerRoundTrip(w, span, slot, byte);
    PointerRoundTrip(w', span', slot', byte');
    SameWindow(w.base, w'.base);
  }

  lemma SameWindow(a: nat, b: nat)
    requires a % WINDOW_SIZE == 0 && b % WINDOW_SIZE == 0
    ensures a / WINDOW_SIZE == b / WINDOW_SIZE ==> a == b
  {}

  lemma SliceOf(base: nat, pointer: nat)
    requires base % WINDOW_SIZE == 0
    ensures base <= pointer < base + WINDOW_SIZE <==> base / WINDOW_SIZE == pointer / WINDOW_SIZE
  {}

  // A slot of a class whose size an alignment divides starts at a multiple of that alignment.
  lemma SlotAligned(w: Window, span: nat, slot: nat, align: nat)
    requires WindowOk(w) && IsPowerOfTwo(align) && w.geometry.size % align == 0
    ensures SlotAddress(w, span, slot) % align == 0
  {
    var g := w.geometry;
    AlignDividesStride(g, align);
    WindowIsPower();
    PowersDivide(Stride(g), WINDOW_SIZE);
    Transitive(align, Stride(g), WINDOW_SIZE);
    Transitive(align, WINDOW_SIZE, w.base);
    AllMultiples(align, w.base, Stride(g), g.size, span, slot);
  }

  lemma AlignDividesStride(g: Geometry, align: nat)
    requires Routable(g) && IsPowerOfTwo(align) && g.size % align == 0
    ensures Stride(g) % align == 0
  {
    if align > g.size { DivModUnique(g.size, align, 0, g.size); }
    Times(g.size, 1, g.slots);
    PowersDivide(align, Stride(g));
  }

  lemma AllMultiples(a: nat, base: nat, stride: nat, size: nat, span: nat, slot: nat)
    requires a > 0 && base % a == 0 && stride % a == 0 && size % a == 0
    ensures (base + span * stride + slot * size) % a == 0
  {
    ScaledMultiple(a, span, stride);
    ScaledMultiple(a, slot, size);
    SumMultiple(a, base, span * stride);
    SumMultiple(a, base + span * stride, slot * size);
  }

  lemma ScaledMultiple(a: nat, n: nat, x: nat)
    requires a > 0 && x % a == 0
    ensures n * x % a == 0
  {
    assert n * x == a * (n * (x / a)) by { assert x == a * (x / a); }
    Multiple(a, n * (x / a));
  }

  lemma SumMultiple(a: nat, x: nat, y: nat)
    requires a > 0 && x % a == 0 && y % a == 0
    ensures (x + y) % a == 0
  {
    assert x + y == a * (x / a + y / a);
    Multiple(a, x / a + y / a);
  }

  // The reservation is trimmed to an aligned range inside what the kernel mapped.
  function AlignUp(raw: nat, alignment: nat): nat
    requires alignment > 0
  {
    (raw + alignment - 1) / alignment * alignment
  }

  lemma ReservationAligned(raw: nat, alignment: nat)
    requires alignment > 0
    ensures var base := AlignUp(raw, alignment);
            && raw <= base < raw + alignment && base % alignment == 0
            && forall x: nat :: raw <= x && x % alignment == 0 ==> base <= x
  {
    var m := raw + alignment - 1;
    var q := m / alignment;
    assert m == alignment * q + m % alignment;
    assert AlignUp(raw, alignment) == q * alignment == alignment * q;
    Multiple(alignment, q);
    forall x: nat | raw <= x && x % alignment == 0 ensures q * alignment <= x {
      assert x == alignment * (x / alignment);
      LeastMultiple(raw, alignment, q, x / alignment);
    }
  }

  /** A range of addresses. */
  datatype Extent = Extent(start: nat, length: nat)
  {
    predicate Has(a: nat) { start <= a < start + length }
  }

  // The reservation of `bytes + alignment` bytes that the kernel mapped, or refused, is cut down:
  // the kept range starts at the first aligned address, and it and the ranges given back, none of
  // them empty, tile the reservation.
  method ReserveAligned(mapped: Option<nat>, bytes: nat, alignment: nat) returns (kept: Option<Extent>, unmapped: seq<Extent>)
    requires alignment > 0
    ensures mapped.None? ==> kept.None? && unmapped == []
    ensures mapped.Some? ==>
      var whole := Extent(mapped.value, bytes + alignment);
      && kept.Some? && kept.value.length == bytes && kept.value.start % alignment == 0
      && (forall x: nat :: mapped.value <= x && x % alignment == 0 ==> kept.value.start <= x)
      && (forall a: nat :: whole.Has(a) <==> kept.value.Has(a) || exists i :: 0 <= i < |unmapped| && unmapped[i].Has(a))
      && (forall i, a: nat :: 0 <= i < |unmapped| && unmapped[i].Has(a) ==> !kept.value.Has(a))
      && (forall i, j, a: nat :: 0 <= i < j < |unmapped| && unmapped[i].Has(a) ==> !unmapped[j].Has(a))
      && (forall i :: 0 <= i < |unmapped| ==> unmapped[i].length > 0)
  {
    if mapped.None? {
      return None, [];
    }
    var raw := mapped.value;
    ReservationAligned(raw, alignment);
    var leading := AlignUp(raw, alignment) - raw;
    var trailing := alignment - leading;
    unmapped := [];
    if leading > 0 {
      unmapped := unmapped + [Extent(raw, leading)];
    }
    if trailing > 0 {
      unmapped := unmapped + [Extent(raw + leading + bytes, trailing)];
    }
    kept := Some(Extent(raw + leading, bytes));
    assert unmapped[|unmapped| - 1] == Extent(raw + leading + bytes, trailing);
    assert leading > 0 ==> unmapped[0] == Extent(raw, leading);
  }

  /** The state of one window that carving changes. */
  class ClassWindow {
    const window: Window
    var spanCursor: nat

    ghost predicate Valid()
      reads this
    {
      WindowOk(window) && spanCursor <= WINDOW_SIZE && spanCursor % Stride(window.geometry) == 0
    }

    ghost function Carved(): nat
      reads this
    {
      ShiftRight(spanCursor, window.geometry.strideShift)
    }

    constructor (sizeClass: nat, base: nat)
      requires sizeClass < COUNT && 0 < base && base % WINDOW_SIZE == 0
      ensures Valid() && window == Window(base, GeometryOf(sizeClass)) && Carved() == 0
    {
      TableRoutable(sizeClass);
      window, spanCursor := Window(base, GeometryOf(sizeClass)), 0;
    }

    // Hands out span numbers in order until the window is used up, each with its own data.
    method CreateSpan() returns (data: Option<nat>)
      requires Valid()
      modifies this
      ensures Valid()
      ensures data == if old(Carved()) < MaxSpans(window.geometry) then Some(SpanAddress(window, old(Carved()))) else None
      ensures Carved() == if data.Some? then old(Carved()) + 1 else MaxSpans(window.geometry)
      ensures data.Some? ==> SpanNumber(window, data.value) == old(Carved())
    {
      var padded := Pow2(window.geometry.strideShift);
      CursorFits(window.geometry, spanCursor);
      var next := spanCursor + padded;
      if next <= WINDOW_SIZE {
        data := Some(window.base + spanCursor);
        spanCursor := next;
      } else {
        data := None;
      }
    }

    method SpanForPointer(pointer: nat) returns (span: nat)
      requires Valid() && window.base <= pointer < window.base + WINDOW_SIZE
      ensures span == SpanNumber(window, pointer) && span < MaxSpans(window.geometry)
    {
      var offset := pointer - window.base;
      span := ShiftRight(offset, window.geometry.strideShift);
      SpansFill(window.geometry);
      QuotientBelow(offset, Stride(window.geometry), MaxSpans(window.geometry));
    }
  }

  lemma CursorFits(g: Geometry, cursor: nat)
    requires Routable(g) && cursor % Stride(g) == 0 && cursor <= WINDOW_SIZE
    ensures var n := cursor / Stride(g);
            && cursor == n * Stride(g) && n <= MaxSpans(g)
            && (cursor + Stride(g) <= WINDOW_SIZE <==> n < MaxSpans(g))
            && (cursor + Stride(g)) / Stride(g) == n + 1 && (cursor + Stride(g)) % Stride(g) == 0
  {
    SpansFill(g);
    CursorArithmetic(cursor, Stride(g), cursor / Stride(g), MaxSpans(g));
  }

  lemma CursorArithmetic(cursor: nat, s: nat, n: nat, max: nat)
    requires s > 0 && cursor == s * n && WINDOW_SIZE == s * max && cursor <= WINDOW_SIZE
    ensures n <= max && (cursor + s <= WINDOW_SIZE <==> n < max)
    ensures (cursor + s) / s == n + 1 && (cursor + s) % s == 0
  {
    if n < max { Times(s, n + 1, max); }
    if n > max { Times(s, max + 1, n); }
    DivModUnique(cursor + s, s, n + 1, 0);
  }

  /** One slot for each 16 GB slice of the 47-bit address space. */
  class WindowDirectory {
    const slots: array<Option<Window>>

    ghost predicate Valid()
      reads this, slots
    {
      && slots.Length == SLOT_COUNT
      && forall i :: 0 <= i < SLOT_COUNT && slots[i].Some? ==>
           WindowOk(slots[i].value) && ShiftRight(slots[i].value.base, SIZE_SHIFT) == i
    }

    ghost predicate Published(w: Window)
      reads this, slots
    {
      exists i :: 0 <= i < slots.Length && slots[i] == Some(w)
    }

    constructor ()
      ensures Valid() && fresh(slots) && forall w :: !Published(w)
    {
      slots := new Option<Window>[SLOT_COUNT](_ => None);
    }

    // The kernel may refuse the mapping that holds the window's span metadata.
    method Mint(sizeClass: nat, base: nat, metadataGranted: bool) returns (window: Option<Window>)
      requires Valid() && sizeClass < COUNT && 0 < base && base % WINDOW_SIZE == 0
      requires forall w :: Published(w) ==> w.base != base
      modifies slots
      ensures Valid()
      ensures window == if ShiftRight(base, SIZE_SHIFT) >= SLOT_COUNT || !metadataGranted then None else Some(Window(base, GeometryOf(sizeClass)))
      ensures forall w :: Published(w) <==> old(Published(w)) || window == Some(w)
    {
      var index := ShiftRight(base, SIZE_SHIFT);
      if index >= SLOT_COUNT {
        return None;
      }
      if !metadataGranted {
        return None;
      }
      WindowShift();
      assert slots[index].None? by {
        if slots[index].Some? { SameWindow(slots[index].value.base, base); }
      }
      TableRoutable(sizeClass);
      slots[index] := Some(Window(base, GeometryOf(sizeClass)));
      window := slots[index];
      ghost var before := old(slots[..]);
      assert slots[..] == before[index := window];
      forall w ensures Published(w) <==> old(Published(w)) || window == Some(w) {
        if old(Published(w)) {
          var i :| 0 <= i < SLOT_COUNT && before[i] == Some(w);
          assert slots[i] == Some(w);
        }
      }
    }

    // A lookup finds the published window that contains the pointer, and nothing else.
    method Lookup(pointer: nat) returns (window: Option<Window>)
      requires Valid()
      ensures window.Some? ==> Published(window.value) && window.value.base <= pointer < window.value.base + WINDOW_SIZE
      ensures forall w :: Published(w) && w.base <= pointer < w.base + WINDOW_SIZE ==> window == Some(w)
    {
      WindowShift();
      var index := ShiftRight(pointer, SIZE_SHIFT);
      forall w | Published(w) ensures
        ShiftRight(w.base, SIZE_SHIFT) < SLOT_COUNT && slots[ShiftRight(w.base, SIZE_SHIFT)] == Some(w)
        && (w.base <= pointer < w.base + WINDOW_SIZE <==> ShiftRight(w.base, SIZE_SHIFT) == index)
      {
        SliceOf(w.base, pointer);
      }
      if index >= SLOT_COUNT {
        return None;
      }
      window := slots[index];
    }
  }
}
