/** Where the slots of all spans are while threads allocate, free, exit and adopt each
    other's spans. `Step` performs one atomic or thread-local action of one thread. Owners
    change their bitmap, other threads free through the span's atomic side channel. */
module SlotLedger {
  const BITS: nat := 64

  datatype Slot = Slot(span: nat, index: nat)

  /** Where a span is filed; `Popped` is between leaving the abandoned pool and its new owner's store. */
  datatype Filing = Owned(tid: nat) | Pool | Popped(tid: nat) | Dropped

  /** `used` is the owner's bitmap; `remote` and `summary` are the atomic side channel. */
  datatype Span = Span(owner: nat, total: nat, used: set<nat>, remote: set<nat>, summary: set<nat>, filing: Filing)

  datatype Heap = NoHeap | Live(id: nat) | Leaving(id: nat)

  /** What a thread has in hand between two of its steps. */
  datatype Pc =
    | Idle
    | OrWord(slot: Slot)
    | OrSummary(span: nat, word: nat)
    | Draining(span: nat, pending: set<nat>)
    | SetOwner(span: nat)

  datatype Thread = Thread(heap: Heap, magazine: set<Slot>, pc: Pc)

  /** The observer's account of a slot. */
  datatype Place = Free | Cached(tid: nat) | Held | InFlight(tid: nat) | Pending

  datatype State = State(
    spans: seq<Span>,
    threads: map<nat, Thread>,
    nextId: nat,
    held: set<Slot>,
    panicked: bool,
    ledger: map<Slot, Place>)
  {
    ghost function PlaceOf(slot: Slot): Place { if slot in ledger then ledger[slot] else Free }
    predicate Has(slot: Slot) { slot.span < |spans| && slot.index < spans[slot.span].total }
    function Put(t: nat, thread: Thread): State { this.(threads := threads[t := thread]) }
    function Change(k: nat, span: Span): State requires k < |spans| { this.(spans := spans[k := span]) }
    function Account(slot: Slot, place: Place): State { this.(ledger := ledger[slot := place]) }
  }

  datatype Action =
    | Install
    | Create(total: nat)
    | Claim(span: nat, indices: set<nat>)
    | Draw(slot: Slot)
    | Release(slot: Slot)
    | StoreWord
    | StoreSummary
    | Flush(slot: Slot)
    | Drain(span: nat)
    | DrainWord(word: nat)
    | Exit
    | Abandon(span: nat, dropped: bool)
    | Depart
    | Adopt(span: nat)
    | StoreOwner

  datatype Move = Move(tid: nat, action: Action)

  // ---------------------------------------------------------------- steps

  predicate Owns(s: State, t: nat, k: nat) { k < |s.spans| && s.spans[k].filing == Owned(t) }

  // When the program can take the step. A block is released only by a holder, and once.
  ghost predicate Allowed(s: State, t: nat, a: Action) {
    t in s.threads
    && var th := s.threads[t];
    match a
    case Install => th.pc == Idle && th.heap == NoHeap
    case Create(_) => th.pc == Idle && th.heap.Live?
    case Claim(k, indices) =>
      th.pc == Idle && th.heap.Live? && Owns(s, t, k)
      && (forall i :: i in indices ==> i < s.spans[k].total && i !in s.spans[k].used)
    case Draw(slot) => th.pc == Idle && th.heap.Live? && slot in th.magazine
    case Release(slot) => th.pc == Idle && th.heap.Live? && slot in s.held && s.Has(slot)
    case StoreWord => th.pc.OrWord? && s.Has(th.pc.slot)
    case StoreSummary => th.pc.OrSummary? && th.pc.span < |s.spans|
    case Flush(slot) => th.pc == Idle && th.heap != NoHeap && slot in th.magazine && s.Has(slot)
    case Drain(k) => th.pc == Idle && th.heap.Live? && Owns(s, t, k)
    case DrainWord(w) => th.pc.Draining? && th.pc.span < |s.spans| && (w in th.pc.pending || th.pc.pending == {})
    case Exit => th.pc == Idle && th.heap.Live?
    case Abandon(k, _) =>
      th.pc == Idle && th.heap.Leaving? && Owns(s, t, k) && (forall slot :: slot in th.magazine ==> slot.span != k)
    case Depart =>
      th.pc == Idle && th.heap.Leaving? && th.magazine == {} && (forall k :: 0 <= k < |s.spans| ==> s.spans[k].filing != Owned(t))
    case Adopt(k) => th.pc == Idle && th.heap.Live? && k < |s.spans| && s.spans[k].filing == Pool
    case StoreOwner => th.pc.SetOwner? && th.pc.span < |s.spans| && th.heap.Live?
  }

  ghost function Step(s: State, m: Move): State {
    if Allowed(s, m.tid, m.action) then Do(s, m.tid, m.action) else s
  }

  function Word(bits: set<nat>, w: nat): set<nat> { set i | i in bits && i / BITS == w }

  ghost function Do(s: State, t: nat, a: Action): State
    requires Allowed(s, t, a)
  {
    var th := s.threads[t];
    match a
    case Install => s.Put(t, th.(heap := Live(s.nextId), magazine := {})).(nextId := s.nextId + 1)
    case Create(total) => s.(spans := s.spans + [Span(th.heap.id, total, {}, {}, {}, Owned(t))])
    case Claim(k, indices) =>
      var slots := set i | i in indices :: Slot(k, i);
      s.Change(k, s.spans[k].(used := s.spans[k].used + indices)).Put(t, th.(magazine := th.magazine + slots))
       .(ledger := s.ledger + map slot | slot in slots :: Cached(t))
    case Draw(slot) =>
      s.Put(t, th.(magazine := th.magazine - {slot})).(held := s.held + {slot}).Account(slot, Held)
    case Release(slot) =>
      var freed := s.(held := s.held - {slot});
      if s.spans[slot.span].owner == th.heap.id then
        freed.Put(t, th.(magazine := th.magazine + {slot})).Account(slot, Cached(t))
      else freed.Put(t, th.(pc := OrWord(slot))).Account(slot, InFlight(t))
    case StoreWord =>
      var slot := th.pc.slot;
      var span := s.spans[slot.span];
      s.Change(slot.span, span.(remote := span.remote + {slot.index}))
       .Put(t, th.(pc := OrSummary(slot.span, slot.index / BITS))).Account(slot, Pending)
    case StoreSummary =>
      var span := s.spans[th.pc.span];
      s.Change(th.pc.span, span.(summary := span.summary + {th.pc.word})).Put(t, th.(pc := Idle))
    case Flush(slot) =>
      var span := s.spans[slot.span];
      s.Change(slot.span, span.(used := span.used - {slot.index})).Put(t, th.(magazine := th.magazine - {slot}))
       .Account(slot, Free)
    case Drain(k) =>
      s.Change(k, s.spans[k].(summary := {})).Put(t, th.(pc := Draining(k, s.spans[k].summary)))
    case DrainWord(w) =>
      if th.pc.pending == {} then s.Put(t, th.(pc := Idle))
      else
        var k := th.pc.span;
        var span := s.spans[k];
        var freed := Word(span.remote, w);
        s.Change(k, span.(remote := span.remote - freed, used := span.used - freed))
         .Put(t, th.(pc := Draining(k, th.pc.pending - {w})))
         .(panicked := s.panicked || !(freed <= span.used),
           ledger := s.ledger + map i | i in freed :: Slot(k, i) := Free)
    case Exit => s.Put(t, th.(heap := Leaving(th.heap.id)))
    case Abandon(k, dropped) => s.Change(k, s.spans[k].(filing := if dropped then Dropped else Pool))
    case Depart => s.Put(t, th.(heap := NoHeap))
    case Adopt(k) => s.Change(k, s.spans[k].(filing := Popped(t))).Put(t, th.(pc := SetOwner(k)))
    case StoreOwner =>
      var k := th.pc.span;
      s.Change(k, s.spans[k].(owner := th.heap.id, filing := Owned(t))).Put(t, th.(pc := Idle))
  }

  // ---------------------------------------------------------------- invariant

  // The ledger agrees with the bitmaps, the side channel and the program's blocks.
  ghost predicate SlotOk(s: State, slot: Slot) {
    var place := s.PlaceOf(slot);
    && (slot in s.held <==> place == Held)
    && (slot.span < |s.spans| ==> (slot.index in s.spans[slot.span].used <==> place != Free))
    && (slot.span < |s.spans| ==> (slot.index in s.spans[slot.span].remote <==> place == Pending))
    && (place != Free ==> s.Has(slot))
    && (place.Cached? ==> place.tid in s.threads && slot in s.threads[place.tid].magazine)
    && (place.InFlight? ==> place.tid in s.threads && s.threads[place.tid].pc == OrWord(slot))
  }

  // What a thread has in hand is accounted to it, and it caches slots of its own spans only.
  ghost predicate ThreadOk(s: State, t: nat)
    requires t in s.threads
  {
    var th := s.threads[t];
    && (forall slot :: slot in th.magazine ==> s.PlaceOf(slot) == Cached(t) && Owns(s, t, slot.span))
    && (th.pc.OrWord? ==> s.PlaceOf(th.pc.slot) == InFlight(t))
    && (th.pc.OrSummary? ==> th.pc.span < |s.spans|)
    && (th.pc.Draining? ==> Owns(s, t, th.pc.span) && th.heap.Live?)
    && (th.pc.SetOwner? ==> th.pc.span < |s.spans| && s.spans[th.pc.span].filing == Popped(t) && th.heap.Live?)
    && (th.heap == NoHeap ==> th.magazine == {})
    && (th.heap != NoHeap ==> th.heap.id < s.nextId)
  }

  // A span's owner field names the heap it is filed under, and no other heap.
  ghost predicate SpanOk(s: State, k: nat)
    requires k < |s.spans|
  {
    var span := s.spans[k];
    && span.owner < s.nextId
    && (span.filing.Owned? ==> span.filing.tid in s.threads && s.threads[span.filing.tid].heap != NoHeap
                               && s.threads[span.filing.tid].heap.id == span.owner)
    && (span.filing.Popped? ==> span.filing.tid in s.threads && s.threads[span.filing.tid].pc == SetOwner(k))
    && (forall t :: t in s.threads && s.threads[t].heap == Live(span.owner) ==> span.filing == Owned(t))
  }

  ghost predicate IdsDiffer(s: State) {
    forall t, u :: t in s.threads && u in s.threads && t != u && s.threads[t].heap != NoHeap && s.threads[u].heap != NoHeap
      ==> s.threads[t].heap.id != s.threads[u].heap.id
  }

  predicate Owes(pc: Pc, k: nat, w: nat) {
    pc == OrSummary(k, w) || (pc.Draining? && pc.span == k && w in pc.pending)
  }

  // The word's summary bit is set, or its writer or a running drain still has the word in hand.
  ghost predicate Noticed(s: State, k: nat, w: nat)
    requires k < |s.spans|
  {
    w in s.spans[k].summary || exists t :: t in s.threads && Owes(s.threads[t].pc, k, w)
  }

  ghost predicate NoneLost(s: State) {
    forall k, i :: 0 <= k < |s.spans| && i in s.spans[k].remote ==> Noticed(s, k, i / BITS)
  }

  ghost predicate Inv(s: State) {
    && !s.panicked
    && (forall slot :: SlotOk(s, slot))
    && (forall t :: t in s.threads ==> ThreadOk(s, t))
    && (forall k :: 0 <= k < |s.spans| ==> SpanOk(s, k))
    && IdsDiffer(s)
    && NoneLost(s)
  }

  // The thread itself, or the summary bit, accounts for the word.
  predicate Minds(s: State, t: nat, k: nat, w: nat)
    requires t in s.threads && k < |s.spans|
  {
    w in s.spans[k].summary || Owes(s.threads[t].pc, k, w)
  }

  // A step of thread `t` loses no remote free if each remaining bit is new and minded, or was
  // there and is minded as before.
  lemma NoneLostAfter(s: State, s': State, t: nat)
    requires NoneLost(s) && t in s.threads && t in s'.threads && |s.spans| <= |s'.spans|
    requires forall u :: u in s.threads && u != t ==> u in s'.threads && s'.threads[u] == s.threads[u]
    requires forall k, i :: 0 <= k < |s'.spans| && i in s'.spans[k].remote ==>
      || Minds(s', t, k, i / BITS)
      || (k < |s.spans| && i in s.spans[k].remote && !Minds(s, t, k, i / BITS))
    ensures NoneLost(s')
  {
    forall k, i | 0 <= k < |s'.spans| && i in s'.spans[k].remote ensures Noticed(s', k, i / BITS) {
      if !Minds(s', t, k, i / BITS) {
        assert Noticed(s, k, i / BITS);
        var u :| u in s.threads && Owes(s.threads[u].pc, k, i / BITS);
        assert u in s'.threads && Owes(s'.threads[u].pc, k, i / BITS);
      }
    }
  }

  lemma InstallKeeps(s: State, t: nat)
    requires Inv(s) && Allowed(s, t, Install)
    ensures Inv(Do(s, t, Install))
  {
    var s' := Do(s, t, Install);
    forall x ensures SlotOk(s', x) { assert SlotOk(s, x); }
    forall u | u in s'.threads ensures ThreadOk(s', u) { assert ThreadOk(s, u); }
    forall j | 0 <= j < |s'.spans| ensures SpanOk(s', j) { assert j < |s.spans| ==> SpanOk(s, j); }
    NoneLostAfter(s, s', t);
  }

  lemma CreateKeeps(s: State, t: nat, total: nat)
    requires Inv(s) && Allowed(s, t, Create(total))
    ensures Inv(Do(s, t, Create(total)))
  {
    var s' := Do(s, t, Create(total));
    forall x ensures SlotOk(s', x) { assert SlotOk(s, x); }
    forall u | u in s'.threads ensures ThreadOk(s', u) { assert ThreadOk(s, u); }
    forall j | 0 <= j < |s'.spans| ensures SpanOk(s', j) { assert j < |s.spans| ==> SpanOk(s, j); }
    NoneLostAfter(s, s', t);
  }

  lemma ClaimKeeps(s: State, t: nat, k: nat, indices: set<nat>)
    requires Inv(s) && Allowed(s, t, Claim(k, indices))
    ensures Inv(Do(s, t, Claim(k, indices)))
  {
    var s' := Do(s, t, Claim(k, indices));
    forall x ensures s'.PlaceOf(x) == if x.span == k && x.index in indices then Cached(t) else s.PlaceOf(x) {}
    forall x ensures SlotOk(s', x) { assert SlotOk(s, x); }
    ClaimKeepsThreads(s, t, k, indices);
    forall j | 0 <= j < |s'.spans| ensures SpanOk(s', j) { assert SpanOk(s, j); }
    NoneLostAfter(s, s', t);
  }

  lemma ClaimKeepsThreads(s: State, t: nat, k: nat, indices: set<nat>)
    requires Inv(s) && Allowed(s, t, Claim(k, indices))
    ensures var s' := Do(s, t, Claim(k, indices)); forall u :: u in s'.threads ==> ThreadOk(s', u)
  {
    var s' := Do(s, t, Claim(k, indices));
    forall x ensures s'.PlaceOf(x) == if x.span == k && x.index in indices then Cached(t) else s.PlaceOf(x) {}
    forall u | u in s'.threads ensures ThreadOk(s', u) {
      assert ThreadOk(s, u);
      if s.threads[u].pc.OrWord? { assert SlotOk(s, s.threads[u].pc.slot); }
      forall x | x in s.threads[u].magazine ensures x.span == k ==> x.index !in indices { assert SlotOk(s, x); }
    }
  }

  lemma DrawKeeps(s: State, t: nat, slot: Slot)
    requires Inv(s) && Allowed(s, t, Draw(slot))
    ensures Inv(Do(s, t, Draw(slot)))
  {
    var s' := Do(s, t, Draw(slot));
    forall x ensures SlotOk(s', x) { assert SlotOk(s, x); }
    forall u | u in s'.threads ensures ThreadOk(s', u) { assert ThreadOk(s, u); }
    forall j | 0 <= j < |s'.spans| ensures SpanOk(s', j) { assert j < |s.spans| ==> SpanOk(s, j); }
    NoneLostAfter(s, s', t);
  }

  lemma ReleaseKeeps(s: State, t: nat, slot: Slot)
    requires Inv(s) && Allowed(s, t, Release(slot))
    ensures Inv(Do(s, t, Release(slot)))
  {
    if s.spans[slot.span].owner == s.threads[t].heap.id { LocalReleaseKeeps(s, t, slot); } else { RemoteReleaseKeeps(s, t, slot); }
  }

  lemma LocalReleaseKeeps(s: State, t: nat, slot: Slot)
    requires Inv(s) && Allowed(s, t, Release(slot)) && s.spans[slot.span].owner == s.threads[t].heap.id
    ensures Inv(Do(s, t, Release(slot)))
  {
    var s' := Do(s, t, Release(slot));
    assert SlotOk(s, slot) && SpanOk(s, slot.span);
    forall x ensures SlotOk(s', x) { assert SlotOk(s, x); }
    forall u | u in s'.threads ensures ThreadOk(s', u) { assert ThreadOk(s, u); }
    forall j | 0 <= j < |s'.spans| ensures SpanOk(s', j) { assert SpanOk(s, j); }
    NoneLostAfter(s, s', t);
  }

  lemma RemoteReleaseKeeps(s: State, t: nat, slot: Slot)
    requires Inv(s) && Allowed(s, t, Release(slot)) && s.spans[slot.span].owner != s.threads[t].heap.id
    ensures Inv(Do(s, t, Release(slot)))
  {
    var s' := Do(s, t, Release(slot));
    assert SlotOk(s, slot);
    forall x ensures SlotOk(s', x) { assert SlotOk(s, x); }
    forall u | u in s'.threads ensures ThreadOk(s', u) { assert ThreadOk(s, u); }
    forall j | 0 <= j < |s'.spans| ensures SpanOk(s', j) { assert SpanOk(s, j); }
    NoneLostAfter(s, s', t);
  }

  lemma StoreWordLost(s: State, t: nat)
    requires Inv(s) && Allowed(s, t, StoreWord)
    ensures NoneLost(Do(s, t, StoreWord))
  {
    NoneLostAfter(s, Do(s, t, StoreWord), t);
  }

  lemma StoreWordSlots(s: State, t: nat)
    requires Inv(s) && Allowed(s, t, StoreWord)
    ensures var s' := Do(s, t, StoreWord); forall x :: SlotOk(s', x)
  {
    forall x ensures SlotOk(Do(s, t, StoreWord), x) { assert SlotOk(s, x); }
  }

  lemma StoreWordKeeps(s: State, t: nat)
    requires Inv(s) && Allowed(s, t, StoreWord)
    ensures Inv(Do(s, t, StoreWord))
  {
    var s' := Do(s, t, StoreWord);
    StoreWordSlots(s, t);
    forall u | u in s'.threads ensures ThreadOk(s', u) { assert ThreadOk(s, u); }
    forall j | 0 <= j < |s'.spans| ensures SpanOk(s', j) { assert SpanOk(s, j); }
    StoreWordLost(s, t);
  }

  lemma StoreSummaryLost(s: State, t: nat)
    requires Inv(s) && Allowed(s, t, StoreSummary)
    ensures NoneLost(Do(s, t, StoreSummary))
  {
    NoneLostAfter(s, Do(s, t, StoreSummary), t);
  }

  lemma StoreSummarySlots(s: State, t: nat)
    requires Inv(s) && Allowed(s, t, StoreSummary)
    ensures var s' := Do(s, t, StoreSummary); forall x :: SlotOk(s', x)
  {
    forall x ensures SlotOk(Do(s, t, StoreSummary), x) { assert SlotOk(s, x); }
  }

  lemma StoreSummaryKeeps(s: State, t: nat)
    requires Inv(s) && Allowed(s, t, StoreSummary)
    ensures Inv(Do(s, t, StoreSummary))
  {
    var s' := Do(s, t, StoreSummary);
    StoreSummarySlots(s, t);
    forall u | u in s'.threads ensures ThreadOk(s', u) { assert ThreadOk(s, u); }
    forall j | 0 <= j < |s'.spans| ensures SpanOk(s', j) { assert SpanOk(s, j); }
    StoreSummaryLost(s, t);
  }

  lemma FlushLost(s: State, t: nat, slot: Slot)
    requires Inv(s) && Allowed(s, t, Flush(slot))
    ensures NoneLost(Do(s, t, Flush(slot)))
  {
    NoneLostAfter(s, Do(s, t, Flush(slot)), t);
  }

  lemma FlushSlots(s: State, t: nat, slot: Slot)
    requires Inv(s) && Allowed(s, t, Flush(slot))
    ensures var s' := Do(s, t, Flush(slot)); forall x :: SlotOk(s', x)
  {
    forall x ensures SlotOk(Do(s, t, Flush(slot)), x) { assert SlotOk(s, x); }
  }

  lemma FlushKeeps(s: State, t: nat, slot: Slot)
    requires Inv(s) && Allowed(s, t, Flush(slot))
    ensures Inv(Do(s, t, Flush(slot)))
  {
    var s' := Do(s, t, Flush(slot));
    FlushSlots(s, t, slot);
    forall u | u in s'.threads ensures ThreadOk(s', u) { assert ThreadOk(s, u); }
    forall j | 0 <= j < |s'.spans| ensures SpanOk(s', j) { assert SpanOk(s, j); }
    FlushLost(s, t, slot);
  }

  lemma DrainLost(s: State, t: nat, k: nat)
    requires Inv(s) && Allowed(s, t, Drain(k))
    ensures NoneLost(Do(s, t, Drain(k)))
  {
    NoneLostAfter(s, Do(s, t, Drain(k)), t);
  }

  lemma DrainSlots(s: State, t: nat, k: nat)
    requires Inv(s) && Allowed(s, t, Drain(k))
    ensures var s' := Do(s, t, Drain(k)); forall x :: SlotOk(s', x)
  {
    forall x ensures SlotOk(Do(s, t, Drain(k)), x) { assert SlotOk(s, x); }
  }

  lemma DrainKeeps(s: State, t: nat, k: nat)
    requires Inv(s) && Allowed(s, t, Drain(k))
    ensures Inv(Do(s, t, Drain(k)))
  {
    var s' := Do(s, t, Drain(k));
    DrainSlots(s, t, k);
    forall u | u in s'.threads ensures ThreadOk(s', u) { assert ThreadOk(s, u); }
    forall j | 0 <= j < |s'.spans| ensures SpanOk(s', j) { assert SpanOk(s, j); }
    DrainLost(s, t, k);
  }

  lemma DrainWordKeeps(s: State, t: nat, w: nat)
    requires Inv(s) && Allowed(s, t, DrainWord(w))
    ensures Inv(Do(s, t, DrainWord(w)))
  {
    if s.threads[t].pc.pending == {} {
      DrainEndKeeps(s, t, w);
    } else {
      DrainPlaces(s, t, w);
      DrainKeepsSlots(s, t, w);
      DrainKeepsThreads(s, t, w);
      DrainKeepsSpans(s, t, w);
      DrainLosesNone(s, t, w);
    }
  }

  lemma DrainEndKeeps(s: State, t: nat, w: nat)
    requires Inv(s) && Allowed(s, t, DrainWord(w)) && s.threads[t].pc.pending == {}
    ensures Inv(Do(s, t, DrainWord(w)))
  {
    var s' := Do(s, t, DrainWord(w));
    forall x ensures SlotOk(s', x) { assert SlotOk(s, x); }
    forall u | u in s'.threads ensures ThreadOk(s', u) { assert ThreadOk(s, u); }
    forall j | 0 <= j < |s'.spans| ensures SpanOk(s', j) { assert SpanOk(s, j); }
    NoneLostAfter(s, s', t);
  }

  // Every bit the owner swaps out of the word is a pending free of an occupied slot.
  lemma DrainPlaces(s: State, t: nat, w: nat)
    requires Inv(s) && Allowed(s, t, DrainWord(w)) && s.threads[t].pc.pending != {}
    ensures var k := s.threads[t].pc.span;
            var freed := Word(s.spans[k].remote, w);
            && freed <= s.spans[k].used
            && (forall i :: i in freed ==> s.PlaceOf(Slot(k, i)) == Pending)
            && (forall x :: Do(s, t, DrainWord(w)).PlaceOf(x) == if x.span == k && x.index in freed then Free else s.PlaceOf(x))
  {
    var k := s.threads[t].pc.span;
    forall i | i in Word(s.spans[k].remote, w) ensures i in s.spans[k].used && s.PlaceOf(Slot(k, i)) == Pending {
      assert SlotOk(s, Slot(k, i));
    }
  }

  lemma DrainKeepsSlots(s: State, t: nat, w: nat)
    requires Inv(s) && Allowed(s, t, DrainWord(w)) && s.threads[t].pc.pending != {}
    ensures var s' := Do(s, t, DrainWord(w)); !s'.panicked && forall x :: SlotOk(s', x)
  {
    DrainPlaces(s, t, w);
    forall x ensures SlotOk(Do(s, t, DrainWord(w)), x) { assert SlotOk(s, x); }
  }

  lemma DrainKeepsThreads(s: State, t: nat, w: nat)
    requires Inv(s) && Allowed(s, t, DrainWord(w)) && s.threads[t].pc.pending != {}
    ensures var s' := Do(s, t, DrainWord(w)); forall u :: u in s'.threads ==> ThreadOk(s', u)
  {
    DrainPlaces(s, t, w);
    var s' := Do(s, t, DrainWord(w));
    forall u | u in s'.threads ensures ThreadOk(s', u) { assert ThreadOk(s, u); }
  }

  lemma DrainKeepsSpans(s: State, t: nat, w: nat)
    requires Inv(s) && Allowed(s, t, DrainWord(w)) && s.threads[t].pc.pending != {}
    ensures var s' := Do(s, t, DrainWord(w)); (forall j :: 0 <= j < |s'.spans| ==> SpanOk(s', j)) && IdsDiffer(s')
  {
    var s' := Do(s, t, DrainWord(w));
    forall j | 0 <= j < |s'.spans| ensures SpanOk(s', j) { assert SpanOk(s, j); }
  }

  lemma DrainLosesNone(s: State, t: nat, w: nat)
    requires Inv(s) && Allowed(s, t, DrainWord(w)) && s.threads[t].pc.pending != {}
    ensures NoneLost(Do(s, t, DrainWord(w)))
  {
    NoneLostAfter(s, Do(s, t, DrainWord(w)), t);
  }

  lemma ExitKeeps(s: State, t: nat)
    requires Inv(s) && Allowed(s, t, Exit)
    ensures Inv(Do(s, t, Exit))
  {
    var s' := Do(s, t, Exit);
    forall x ensures SlotOk(s', x) { assert SlotOk(s, x); }
    forall u | u in s'.threads ensures ThreadOk(s', u) { assert ThreadOk(s, u); }
    forall j | 0 <= j < |s'.spans| ensures SpanOk(s', j) { assert j < |s.spans| ==> SpanOk(s, j); }
    NoneLostAfter(s, s', t);
  }

  lemma AbandonKeeps(s: State, t: nat, k: nat, dropped: bool)
    requires Inv(s) && Allowed(s, t, Abandon(k, dropped))
    ensures Inv(Do(s, t, Abandon(k, dropped)))
  {
    var s' := Do(s, t, Abandon(k, dropped));
    forall x ensures SlotOk(s', x) { assert SlotOk(s, x); }
    forall u | u in s'.threads ensures ThreadOk(s', u) { assert ThreadOk(s, u); }
    forall j | 0 <= j < |s'.spans| ensures SpanOk(s', j) { assert j < |s.spans| ==> SpanOk(s, j); }
    NoneLostAfter(s, s', t);
  }

  lemma DepartKeeps(s: State, t: nat)
    requires Inv(s) && Allowed(s, t, Depart)
    ensures Inv(Do(s, t, Depart))
  {
    var s' := Do(s, t, Depart);
    forall x ensures SlotOk(s', x) { assert SlotOk(s, x); }
    forall u | u in s'.threads ensures ThreadOk(s', u) { assert ThreadOk(s, u); }
    forall j | 0 <= j < |s'.spans| ensures SpanOk(s', j) { assert j < |s.spans| ==> SpanOk(s, j); }
    NoneLostAfter(s, s', t);
  }

  lemma AdoptLost(s: State, t: nat, k: nat)
    requires Inv(s) && Allowed(s, t, Adopt(k))
    ensures NoneLost(Do(s, t, Adopt(k)))
  {
    NoneLostAfter(s, Do(s, t, Adopt(k)), t);
  }

  lemma AdoptSlots(s: State, t: nat, k: nat)
    requires Inv(s) && Allowed(s, t, Adopt(k))
    ensures var s' := Do(s, t, Adopt(k)); forall x :: SlotOk(s', x)
  {
    forall x ensures SlotOk(Do(s, t, Adopt(k)), x) { assert SlotOk(s, x); }
  }

  lemma AdoptKeeps(s: State, t: nat, k: nat)
    requires Inv(s) && Allowed(s, t, Adopt(k))
    ensures Inv(Do(s, t, Adopt(k)))
  {
    var s' := Do(s, t, Adopt(k));
    AdoptSlots(s, t, k);
    forall u | u in s'.threads ensures ThreadOk(s', u) { assert ThreadOk(s, u); }
    forall j | 0 <= j < |s'.spans| ensures SpanOk(s', j) { assert SpanOk(s, j); }
    AdoptLost(s, t, k);
  }

  lemma StoreOwnerKeeps(s: State, t: nat)
    requires Inv(s) && Allowed(s, t, StoreOwner)
    ensures Inv(Do(s, t, StoreOwner))
  {
    var s' := Do(s, t, StoreOwner);
    forall x ensures SlotOk(s', x) { assert SlotOk(s, x); }
    forall u | u in s'.threads ensures ThreadOk(s', u) { assert ThreadOk(s, u); }
    forall j | 0 <= j < |s'.spans| ensures SpanOk(s', j) { assert j < |s.spans| ==> SpanOk(s, j); }
    NoneLostAfter(s, s', t);
  }

  lemma StepKeeps(s: State, m: Move)
    requires Inv(s)
    ensures Inv(Step(s, m))
  {
    var t := m.tid;
    if Allowed(s, t, m.action) {
      match m.action
      case Install => InstallKeeps(s, t);
      case Create(total) => CreateKeeps(s, t, total);
      case Claim(k, indices) => ClaimKeeps(s, t, k, indices);
      case Draw(slot) => DrawKeeps(s, t, slot);
      case Release(slot) => ReleaseKeeps(s, t, slot);
      case StoreWord => StoreWordKeeps(s, t);
      case StoreSummary => StoreSummaryKeeps(s, t);
      case Flush(slot) => FlushKeeps(s, t, slot);
      case Drain(k) => DrainKeeps(s, t, k);
      case DrainWord(w) => DrainWordKeeps(s, t, w);
      case Exit => ExitKeeps(s, t);
      case Abandon(k, dropped) => AbandonKeeps(s, t, k, dropped);
      case Depart => DepartKeeps(s, t);
      case Adopt(k) => AdoptKeeps(s, t, k);
      case StoreOwner => StoreOwnerKeeps(s, t);
    }
  }

  // ---------------------------------------------------------------- runs

  function Start(threads: set<nat>): State {
    State([], map t | t in threads :: Thread(NoHeap, {}, Idle), 1, {}, false, map[])
  }

  ghost function Run(s: State, moves: seq<Move>): State {
    if moves == [] then s else Step(Run(s, moves[..|moves| - 1]), moves[|moves| - 1])
  }

  lemma {:induction false} RunKeeps(s: State, moves: seq<Move>)
    requires Inv(s)
    ensures Inv(Run(s, moves))
  {
    if moves != [] {
      RunKeeps(s, moves[..|moves| - 1]);
      StepKeeps(Run(s, moves[..|moves| - 1]), moves[|moves| - 1]);
    }
  }

  lemma Reached(threads: set<nat>, moves: seq<Move>)
    ensures Inv(Run(Start(threads), moves))
  {
    RunKeeps(Start(threads), moves);
  }

  // Every place the slot is found in, read off the bitmaps, magazines and threads themselves.
  ghost function Found(s: State, slot: Slot): set<Place>
    requires s.Has(slot)
  {
    (if slot.index !in s.spans[slot.span].used then {Free} else {})
    + (set t | t in s.threads && slot in s.threads[t].magazine :: Cached(t))
    + (if slot in s.held then {Held} else {})
    + (set t | t in s.threads && s.threads[t].pc == OrWord(slot) :: InFlight(t))
    + (if slot.index in s.spans[slot.span].remote then {Pending} else {})
  }

  lemma CachedOnce(s: State, slot: Slot)
    requires Inv(s)
    ensures forall t :: t in s.threads ==> (slot in s.threads[t].magazine <==> s.PlaceOf(slot) == Cached(t))
    ensures forall t :: t in s.threads ==> (s.threads[t].pc == OrWord(slot) <==> s.PlaceOf(slot) == InFlight(t))
    ensures s.PlaceOf(slot).Cached? || s.PlaceOf(slot).InFlight? ==> s.PlaceOf(slot).tid in s.threads
  {
    assert SlotOk(s, slot);
    forall t | t in s.threads ensures slot in s.threads[t].magazine <==> s.PlaceOf(slot) == Cached(t) { assert ThreadOk(s, t); }
    forall t | t in s.threads ensures s.threads[t].pc == OrWord(slot) <==> s.PlaceOf(slot) == InFlight(t) { assert ThreadOk(s, t); }
  }

  lemma FoundOnce(s: State, slot: Slot)
    requires Inv(s) && s.Has(slot)
    ensures Found(s, slot) == {s.PlaceOf(slot)}
  {
    CachedOnce(s, slot);
    assert SlotOk(s, slot);
  }

  // In every reachable state each slot of each span is in exactly one place: free in its span's
  // bitmap, in one thread's magazine, held by the program, on its way to the side channel, or
  // pending there.
  lemma Conservation(threads: set<nat>, moves: seq<Move>, slot: Slot)
    requires Run(Start(threads), moves).Has(slot)
    ensures |Found(Run(Start(threads), moves), slot)| == 1
  {
    Reached(threads, moves);
    FoundOnce(Run(Start(threads), moves), slot);
  }

  // A thread is never handed a block that the program still holds, or that is pending or
  // cached anywhere else.
  lemma AllocationIsFresh(threads: set<nat>, moves: seq<Move>, t: nat, slot: Slot)
    requires Allowed(Run(Start(threads), moves), t, Draw(slot))
    ensures var s := Run(Start(threads), moves);
            && slot !in s.held && s.Has(slot) && slot.index in s.spans[slot.span].used
            && slot.index !in s.spans[slot.span].remote
            && forall u :: u in s.threads && u != t ==> slot !in s.threads[u].magazine && s.threads[u].pc != OrWord(slot)
  {
    Reached(threads, moves);
    var s := Run(Start(threads), moves);
    assert ThreadOk(s, t) && SlotOk(s, slot);
    forall u | u in s.threads && u != t ensures slot !in s.threads[u].magazine && s.threads[u].pc != OrWord(slot) {
      assert ThreadOk(s, u);
    }
  }

  // A pending free is never lost: its word's summary bit is set, or the freeing thread still
  // owes it, or the owner's running drain will still visit the word.
  lemma RemoteFreeNoticed(threads: set<nat>, moves: seq<Move>, k: nat, i: nat)
    requires var s := Run(Start(threads), moves); k < |s.spans| && i in s.spans[k].remote
    ensures var s := Run(Start(threads), moves);
            || i / BITS in s.spans[k].summary
            || exists t :: t in s.threads && Owes(s.threads[t].pc, k, i / BITS)
  {
    Reached(threads, moves);
    assert Noticed(Run(Start(threads), moves), k, i / BITS);
  }

  // The check that a drained word names occupied slots never fires, and a finished drain with
  // no free under way leaves nothing pending.
  lemma NeverPanics(threads: set<nat>, moves: seq<Move>)
    ensures !Run(Start(threads), moves).panicked
  {
    Reached(threads, moves);
  }

  lemma QuietSpanIsDrained(threads: set<nat>, moves: seq<Move>, k: nat)
    requires var s := Run(Start(threads), moves);
             && k < |s.spans| && s.spans[k].summary == {}
             && forall t, w :: t in s.threads ==> !Owes(s.threads[t].pc, k, w)
    ensures Run(Start(threads), moves).spans[k].remote == {}
  {
    Reached(threads, moves);
    var s := Run(Start(threads), moves);
  }

  // A free is routed to the freeing thread's own magazine exactly when that thread has the span
  // filed, whatever exits and adoptions went before: heap ids are never reused.
  lemma RoutingIsByOwnership(threads: set<nat>, moves: seq<Move>, t: nat, slot: Slot)
    requires Allowed(Run(Start(threads), moves), t, Release(slot))
    ensures var s := Run(Start(threads), moves);
            s.spans[slot.span].owner == s.threads[t].heap.id <==> s.spans[slot.span].filing == Owned(t)
  {
    Reached(threads, moves);
    assert SpanOk(Run(Start(threads), moves), slot.span);
  }
}
