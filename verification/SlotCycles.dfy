/** What a thread's actions on the slots come to: what one undoes another did, a remote free comes
    all the way back, and a thread that exits leaves everything to its successors. */
module SlotCycles {
  import opened SlotLedger

  // ---------------------------------------------------------------- round trips

  // A block drawn and freed by the owner of its span leaves everything as it was.
  lemma DrawAndFree(s: State, t: nat, slot: Slot)
    requires Inv(s) && Allowed(s, t, Draw(slot)) && s.Has(slot)
    ensures var s1 := Do(s, t, Draw(slot)); Allowed(s1, t, Release(slot)) && Do(s1, t, Release(slot)) == s
  {
    var s1 := Do(s, t, Draw(slot));
    assert ThreadOk(s, t) && SlotOk(s, slot) && SpanOk(s, slot.span);
    var s2 := Do(s1, t, Release(slot));
    assert s.threads[t].magazine - {slot} + {slot} == s.threads[t].magazine;
    assert s2.threads == s.threads && s2.held == s.held && s2.ledger == s.ledger;
  }

  lemma ClaimsOne(s: State, t: nat, k: nat, i: nat)
    requires Inv(s) && Allowed(s, t, Claim(k, {i}))
    ensures var s1, slot, th := Do(s, t, Claim(k, {i})), Slot(k, i), s.threads[t];
            && slot !in th.magazine && i !in s.spans[k].used && slot !in s.held && s.PlaceOf(slot) == Free && s.Has(slot)
            && |s1.spans| == |s.spans| && s1.spans == s.spans[k := s1.spans[k]] && s1.held == s.held
            && s1.spans[k] == s.spans[k].(used := s1.spans[k].used) && s1.spans[k].used == s.spans[k].used + {i}
            && t in s1.threads && s1.threads == s.threads[t := s1.threads[t]]
            && s1.threads[t] == th.(magazine := s1.threads[t].magazine) && s1.threads[t].magazine == th.magazine + {slot}
            && forall x :: s1.PlaceOf(x) == if x == slot then Cached(t) else s.PlaceOf(x)
  {
    var slot := Slot(k, i);
    assert i in {i};
    assert SlotOk(s, slot) && ThreadOk(s, t);
  }

  lemma FlushesBack(s: State, t: nat, slot: Slot)
    requires Allowed(s, t, Flush(slot))
    ensures var s1, th, k := Do(s, t, Flush(slot)), s.threads[t], slot.span;
            && |s1.spans| == |s.spans| && s1.spans == s.spans[k := s1.spans[k]] && s1.held == s.held
            && s1.spans[k] == s.spans[k].(used := s1.spans[k].used) && s1.spans[k].used == s.spans[k].used - {slot.index}
            && t in s1.threads && s1.threads == s.threads[t := s1.threads[t]]
            && s1.threads[t] == th.(magazine := s1.threads[t].magazine) && s1.threads[t].magazine == th.magazine - {slot}
            && forall x :: s1.PlaceOf(x) == if x == slot then Free else s.PlaceOf(x)
  {}

  // A slot claimed and flushed is free in its span again, and nothing else has moved.
  lemma ClaimAndFlush(s: State, t: nat, k: nat, i: nat)
    requires Inv(s) && Allowed(s, t, Claim(k, {i}))
    ensures var s1, slot := Do(s, t, Claim(k, {i})), Slot(k, i);
            && Allowed(s1, t, Draw(slot)) && Allowed(s1, t, Flush(slot))
            && var s2 := Do(s1, t, Flush(slot));
               s2.spans == s.spans && s2.threads == s.threads && s2.held == s.held && forall x :: s2.PlaceOf(x) == s.PlaceOf(x)
  {
    var s1, slot := Do(s, t, Claim(k, {i})), Slot(k, i);
    ClaimsOne(s, t, k, i);
    FlushesBack(s1, t, slot);
    ThereAndBack(s, s1, Do(s1, t, Flush(slot)), t, k, i);
  }

  lemma ThereAndBack(s: State, s1: State, s2: State, t: nat, k: nat, i: nat)
    requires k < |s.spans| == |s1.spans| == |s2.spans| && t in s.threads && t in s1.threads && t in s2.threads
    requires s1.spans == s.spans[k := s1.spans[k]] && s2.spans == s1.spans[k := s2.spans[k]]
    requires s2.spans[k] == s.spans[k].(used := s2.spans[k].used) && s2.spans[k].used == s.spans[k].used + {i} - {i} && i !in s.spans[k].used
    requires s1.threads == s.threads[t := s1.threads[t]] && s2.threads == s1.threads[t := s2.threads[t]]
    requires s2.threads[t] == s.threads[t].(magazine := s2.threads[t].magazine)
    requires s2.threads[t].magazine == s.threads[t].magazine + {Slot(k, i)} - {Slot(k, i)} && Slot(k, i) !in s.threads[t].magazine
    ensures s2.spans == s.spans && s2.threads == s.threads
  {
    assert s2.spans[k].used == s.spans[k].used && s2.threads[t].magazine == s.threads[t].magazine;
    assert s2.spans[k] == s.spans[k] && s2.threads[t] == s.threads[t];
  }

  // ---------------------------------------------------------------- a remote free

  // A free by a thread that does not own the span, up to its second store: the slot is pending, its
  // word is marked, and the thread is back where it was.
  lemma RemoteFree(s: State, t: nat, slot: Slot) returns (s': State)
    requires Inv(s) && Allowed(s, t, Release(slot)) && s.spans[slot.span].filing != Owned(t)
    ensures s' == Run(s, [Move(t, Release(slot)), Move(t, StoreWord), Move(t, StoreSummary)]) && Inv(s')
    ensures s'.threads == s.threads && s'.held == s.held - {slot} && s'.PlaceOf(slot) == Pending && |s'.spans| == |s.spans|
    ensures var span := s.spans[slot.span];
            s'.spans[slot.span] == span.(remote := span.remote + {slot.index}, summary := span.summary + {slot.index / BITS})
  {
    var a, b, c := Move(t, Release(slot)), Move(t, StoreWord), Move(t, StoreSummary);
    var s2 := SendsBit(s, t, slot);
    s' := StoresMark(s2, t, slot.span, slot.index / BITS);
    assert s'.threads == s.threads;
    RunRun(s, [a, b], [c]);
    assert [a, b] + [c] == [a, b, c];
  }

  lemma SendsBit(s: State, t: nat, slot: Slot) returns (s2: State)
    requires Inv(s) && Allowed(s, t, Release(slot)) && s.spans[slot.span].filing != Owned(t)
    ensures s2 == Run(s, [Move(t, Release(slot)), Move(t, StoreWord)]) && Inv(s2)
    ensures s2.held == s.held - {slot} && s2.PlaceOf(slot) == Pending && |s2.spans| == |s.spans|
    ensures s2.spans[slot.span] == s.spans[slot.span].(remote := s.spans[slot.span].remote + {slot.index})
    ensures s.threads[t].pc == Idle && s2.threads == s.threads[t := s.threads[t].(pc := OrSummary(slot.span, slot.index / BITS))]
  {
    var a, b := Move(t, Release(slot)), Move(t, StoreWord);
    var s1 := Sends(s, t, slot);
    s2 := StoresBit(s1, t, slot);
    RunRun(s, [a], [b]);
    assert [a] + [b] == [a, b];
  }

  lemma Sends(s: State, t: nat, slot: Slot) returns (s1: State)
    requires Inv(s) && Allowed(s, t, Release(slot)) && s.spans[slot.span].filing != Owned(t)
    ensures Runs(s, Move(t, Release(slot)), s1) && Inv(s1) && s1.spans == s.spans && s1.held == s.held - {slot}
    ensures s1.threads == s.threads[t := s.threads[t].(pc := OrWord(slot))] && s.threads[t].pc == Idle
  {
    assert SpanOk(s, slot.span) && ThreadOk(s, t);
    StepKeeps(s, Move(t, Release(slot)));
    s1 := Step(s, Move(t, Release(slot)));
    RunOne(s, Move(t, Release(slot)));
  }

  lemma StoresBit(s: State, t: nat, slot: Slot) returns (s1: State)
    requires Inv(s) && t in s.threads && s.threads[t].pc == OrWord(slot)
    ensures Runs(s, Move(t, StoreWord), s1) && Inv(s1)
    ensures s1.held == s.held && s1.PlaceOf(slot) == Pending && slot.span < |s.spans| == |s1.spans|
    ensures s1.spans[slot.span] == s.spans[slot.span].(remote := s.spans[slot.span].remote + {slot.index})
    ensures s1.threads == s.threads[t := s.threads[t].(pc := OrSummary(slot.span, slot.index / BITS))]
  {
    assert ThreadOk(s, t) && SlotOk(s, slot);
    StepKeeps(s, Move(t, StoreWord));
    s1 := Step(s, Move(t, StoreWord));
    RunOne(s, Move(t, StoreWord));
  }

  lemma StoresMark(s: State, t: nat, k: nat, w: nat) returns (s1: State)
    requires Inv(s) && t in s.threads && s.threads[t].pc == OrSummary(k, w)
    ensures Runs(s, Move(t, StoreSummary), s1) && Inv(s1)
    ensures s1.held == s.held && s1.ledger == s.ledger && k < |s.spans| == |s1.spans|
    ensures s1.spans[k] == s.spans[k].(summary := s.spans[k].summary + {w})
    ensures s1.threads == s.threads[t := s.threads[t].(pc := Idle)]
  {
    assert ThreadOk(s, t);
    StepKeeps(s, Move(t, StoreSummary));
    s1 := Step(s, Move(t, StoreSummary));
    RunOne(s, Move(t, StoreSummary));
  }

  ghost predicate Runs(s: State, m: Move, s1: State) { Run(s, [m]) == s1 }

  lemma RunOne(s: State, m: Move)
    ensures Run(s, [m]) == Step(s, m)
  {
    RunOn(s, [], m);
    assert [] + [m] == [m];
  }

  lemma RunOn(s: State, moves: seq<Move>, m: Move)
    ensures Run(s, moves + [m]) == Step(Run(s, moves), m)
  {
    assert (moves + [m])[..|moves|] == moves;
  }

  lemma {:induction false} RunRun(s: State, a: seq<Move>, b: seq<Move>)
    ensures Run(s, a + b) == Run(Run(s, a), b)
    decreases |b|
  {
    if b == [] {
      assert a + b == a;
    } else {
      RunRun(s, a, b[..|b| - 1]);
      assert (a + b)[..|a + b| - 1] == a + b[..|b| - 1];
    }
  }

  // The drain of span `k` that thread `u` is in has ended: what it had in hand is freed.
  ghost predicate Drained(s: State, u: nat, k: nat, s': State)
    requires u in s.threads && s.threads[u].pc.Draining? && k < |s.spans|
  {
    && s'.threads == s.threads[u := s.threads[u].(pc := Idle)] && s'.held == s.held && |s'.spans| == |s.spans|
    && s'.spans[k] == Without(s.spans[k], s.threads[u].pc.pending)
  }

  ghost predicate Drainer(s: State, u: nat, k: nat) {
    Inv(s) && k < |s.spans| && u in s.threads && s.threads[u].pc.Draining? && s.threads[u].pc.span == k
  }

  lemma {:induction false} DrainGoesOn(s: State, u: nat, k: nat) returns (moves: seq<Move>)
    requires Drainer(s, u, k)
    ensures Inv(Run(s, moves)) && Drained(s, u, k, Run(s, moves))
    decreases |s.threads[u].pc.pending|
  {
    if s.threads[u].pc.pending == {} {
      moves := [Move(u, DrainWord(0))];
      DrainLast(s, u, k);
    } else {
      var w :| w in s.threads[u].pc.pending;
      var s1 := DrainOne(s, u, k, w);
      var more := DrainGoesOn(s1, u, k);
      moves := [Move(u, DrainWord(w))] + more;
      RunRun(s, [Move(u, DrainWord(w))], more);
    }
  }

  lemma DrainLast(s: State, u: nat, k: nat)
    requires Drainer(s, u, k) && s.threads[u].pc.pending == {}
    ensures var s' := Run(s, [Move(u, DrainWord(0))]); Inv(s') && Drained(s, u, k, s')
  {
    assert ThreadOk(s, u);
    RunOne(s, Move(u, DrainWord(0)));
    StepKeeps(s, Move(u, DrainWord(0)));
    WithoutNone(s.spans[k]);
  }

  lemma DrainOne(s: State, u: nat, k: nat, w: nat) returns (s1: State)
    requires Drainer(s, u, k) && w in s.threads[u].pc.pending
    ensures Runs(s, Move(u, DrainWord(w)), s1) && Drainer(s1, u, k) && |s1.threads[u].pc.pending| < |s.threads[u].pc.pending|
    ensures forall s': State :: Drained(s1, u, k, s') ==> Drained(s, u, k, s')
  {
    assert ThreadOk(s, u);
    assert Allowed(s, u, DrainWord(w));
    StepKeeps(s, Move(u, DrainWord(w)));
    s1 := Step(s, Move(u, DrainWord(w)));
    RunOne(s, Move(u, DrainWord(w)));
    WordWithout(s.spans[k], w);
    WithoutStep(s.spans[k], s.threads[u].pc.pending, w);
    assert s1.spans[k] == Without(s.spans[k], {w});
    assert s1.threads[u := s1.threads[u].(pc := Idle)] == s.threads[u := s.threads[u].(pc := Idle)];
  }

  lemma WordWithout(span: Span, w: nat)
    ensures Without(span, {w}) == span.(remote := span.remote - Word(span.remote, w), used := span.used - Word(span.remote, w))
  {
    forall i ensures i in Word(span.remote, w) <==> i in span.remote && i / BITS in {w} {}
    assert (set i | i in span.remote && i / BITS !in {w}) == span.remote - Word(span.remote, w);
    assert (set i | i in span.used && !(i in span.remote && i / BITS in {w})) == span.used - Word(span.remote, w);
  }

  // The span with the pending frees of these words freed.
  function Without(span: Span, words: set<nat>): Span {
    span.(remote := (set i | i in span.remote && i / BITS !in words),
          used := (set i | i in span.used && !(i in span.remote && i / BITS in words)))
  }

  lemma WithoutNone(span: Span)
    ensures Without(span, {}) == span
  {
    assert (set i | i in span.remote && i / BITS !in {}) == span.remote;
    assert (set i | i in span.used && !(i in span.remote && i / BITS in {})) == span.used;
  }

  lemma WithoutStep(span: Span, words: set<nat>, w: nat)
    requires w in words
    ensures Without(Without(span, {w}), words - {w}) == Without(span, words)
  {
    var one := Without(span, {w});
    var two := Without(one, words - {w});
    assert two.remote == Without(span, words).remote;
    assert two.used == Without(span, words).used;
  }

  // A drain that the owner runs to its end frees exactly the pending slots of the marked words, and
  // clears the marks.
  lemma Drains(s: State, u: nat, k: nat) returns (moves: seq<Move>)
    requires Inv(s) && Allowed(s, u, Drain(k))
    ensures var s' := Run(s, moves);
            && Inv(s') && s'.threads == s.threads && s'.held == s.held && |s'.spans| == |s.spans|
            && s'.spans[k] == Without(s.spans[k], s.spans[k].summary).(summary := {})
  {
    var m := Move(u, Drain(k));
    var s1 := Step(s, m);
    StepKeeps(s, m);
    var more := DrainGoesOn(s1, u, k);
    moves := [m] + more;
    RunRun(s, [m], more);
    assert [] + [m] == [m];
    RunOn(s, [], m);
    assert Run(s, moves).threads == s.threads;
  }

  // A block freed by another thread comes all the way back: after the freeing thread's two stores
  // and the owner's next drain its slot is free in the span, and can be claimed again.
  lemma RemoteFreeReturns(s: State, t: nat, slot: Slot, u: nat) returns (moves: seq<Move>)
    requires Inv(s) && Allowed(s, t, Release(slot)) && s.spans[slot.span].filing == Owned(u) && u != t
    requires u in s.threads && s.threads[u].pc == Idle && s.threads[u].heap.Live?
    ensures var s' := Run(s, moves);
            && Inv(s') && s'.threads == s.threads && s'.held == s.held - {slot}
            && s'.PlaceOf(slot) == Free && Allowed(s', u, Claim(slot.span, {slot.index}))
  {
    var freed := RemoteFree(s, t, slot);
    var first := [Move(t, Release(slot)), Move(t, StoreWord), Move(t, StoreSummary)];
    var more := Drains(freed, u, slot.span);
    moves := first + more;
    RunRun(s, first, more);
    var s' := Run(s, moves);
    assert SlotOk(s', slot) && SlotOk(freed, slot);
  }

  // ---------------------------------------------------------------- exit and adoption

  // The slots thread `t` cached in `s` are free in `s'`, and nothing else of note has changed.
  ghost predicate Flushed(s: State, t: nat, s': State)
    requires t in s.threads
  {
    && s'.threads == s.threads[t := s.threads[t].(magazine := {})] && |s'.spans| == |s.spans|
    && (forall k :: 0 <= k < |s.spans| ==> s'.spans[k].filing == s.spans[k].filing)
    && (forall x :: x in s.threads[t].magazine ==> s'.PlaceOf(x) == Free)
    && (forall x :: s.PlaceOf(x) == Free ==> s'.PlaceOf(x) == Free)
  }

  ghost predicate Caching(s: State, t: nat) { Inv(s) && t in s.threads && s.threads[t].pc == Idle && s.threads[t].heap.Leaving? }

  lemma FlushesOne(s: State, t: nat, slot: Slot) returns (s1: State)
    requires Caching(s, t) && slot in s.threads[t].magazine
    ensures Runs(s, Move(t, Flush(slot)), s1) && Caching(s1, t)
    ensures |s1.threads[t].magazine| < |s.threads[t].magazine|
    ensures forall s': State :: Flushed(s1, t, s') ==> Flushed(s, t, s')
  {
    assert ThreadOk(s, t) && SlotOk(s, slot);
    StepKeeps(s, Move(t, Flush(slot)));
    s1 := Step(s, Move(t, Flush(slot)));
    RunOne(s, Move(t, Flush(slot)));
    forall s': State | Flushed(s1, t, s') ensures Flushed(s, t, s') {
      assert s1.threads[t := s1.threads[t].(magazine := {})] == s.threads[t := s.threads[t].(magazine := {})];
      assert s1.PlaceOf(slot) == Free;
    }
  }

  // A leaving thread flushes what it caches: every slot of it is free.
  lemma {:induction false} FlushesAll(s: State, t: nat) returns (moves: seq<Move>)
    requires Caching(s, t)
    ensures Caching(Run(s, moves), t) && Flushed(s, t, Run(s, moves))
    decreases |s.threads[t].magazine|
  {
    moves := [];
    if s.threads[t].magazine == {} {
      assert s.threads[t := s.threads[t].(magazine := {})] == s.threads;
    } else {
      var slot :| slot in s.threads[t].magazine;
      var s1 := FlushesOne(s, t, slot);
      var more := FlushesAll(s1, t);
      moves := [Move(t, Flush(slot))] + more;
      RunRun(s, [Move(t, Flush(slot))], more);
    }
  }

  // And abandons its spans, one after another.
  lemma {:induction false} AbandonsAll(s: State, t: nat, n: nat) returns (moves: seq<Move>)
    requires Leaver(s, t) && n <= |s.spans|
    ensures var s' := Run(s, moves);
            && Leaver(s', t) && s'.threads == s.threads && |s'.spans| == |s.spans| && s'.ledger == s.ledger
            && forall k :: 0 <= k < |s.spans| ==> s'.spans[k] == if k < n then Given(s.spans[k], t) else s.spans[k]
    decreases n
  {
    moves := [];
    if n > 0 {
      moves := AbandonsAll(s, t, n - 1);
      var s1 := Run(s, moves);
      if s1.spans[n - 1].filing == Owned(t) {
        var m := Move(t, Abandon(n - 1, false));
        AbandonsOne(s1, t, n - 1);
        RunOn(s, moves, m);
        moves := moves + [m];
      }
    }
  }

  ghost predicate Leaver(s: State, t: nat) {
    Inv(s) && t in s.threads && s.threads[t].pc == Idle && s.threads[t].heap.Leaving? && s.threads[t].magazine == {}
  }

  function Given(span: Span, t: nat): Span { if span.filing == Owned(t) then span.(filing := Pool) else span }

  lemma AbandonsOne(s: State, t: nat, k: nat)
    requires Leaver(s, t) && k < |s.spans| && s.spans[k].filing == Owned(t)
    ensures var s1 := Step(s, Move(t, Abandon(k, false)));
            Leaver(s1, t) && s1 == s.(spans := s.spans[k := Given(s.spans[k], t)])
  {
    StepKeeps(s, Move(t, Abandon(k, false)));
  }

  // A thread that exits can always finish: it ends without a heap, what it cached is free, and its
  // spans are in the pool for others to adopt.
  lemma ExitCompletes(s: State, t: nat) returns (moves: seq<Move>)
    requires Inv(s) && Allowed(s, t, Exit)
    ensures var s' := Run(s, moves);
            && Inv(s') && t in s'.threads && s'.threads[t] == Thread(NoHeap, {}, Idle) && |s'.spans| == |s.spans|
            && (forall x :: x in s.threads[t].magazine ==> s'.PlaceOf(x) == Free)
            && (forall k :: 0 <= k < |s.spans| && s.spans[k].filing == Owned(t) ==> s'.spans[k].filing == Pool)
  {
    var exit, depart := Move(t, Exit), Move(t, Depart);
    StartsToLeave(s, t);
    var s1 := Step(s, exit);
    var flush := FlushesAll(s1, t);
    var s2 := Run(s1, flush);
    var abandon := AbandonsAll(s2, t, |s2.spans|);
    var s3 := Run(s2, abandon);
    Departs(s3, t);
    moves := [exit] + (flush + (abandon + [depart]));
    assert [] + [exit] == [exit];
    RunOn(s, [], exit);
    RunRun(s, [exit], flush + (abandon + [depart]));
    RunRun(s1, flush, abandon + [depart]);
    RunOn(s2, abandon, depart);
  }

  lemma StartsToLeave(s: State, t: nat)
    requires Inv(s) && Allowed(s, t, Exit)
    ensures var s1 := Step(s, Move(t, Exit));
            && Inv(s1) && s1 == s.(threads := s.threads[t := s.threads[t].(heap := Leaving(s.threads[t].heap.id))])
            && s.threads[t].pc == Idle
  {
    StepKeeps(s, Move(t, Exit));
  }

  lemma Departs(s: State, t: nat)
    requires Leaver(s, t) && forall k :: 0 <= k < |s.spans| ==> s.spans[k].filing != Owned(t)
    ensures var s1 := Step(s, Move(t, Depart));
            Inv(s1) && s1 == s.(threads := s.threads[t := s.threads[t].(heap := NoHeap)])
  {
    StepKeeps(s, Move(t, Depart));
  }

  lemma Adopts(s: State, u: nat, k: nat)
    requires Inv(s) && Allowed(s, u, Adopt(k))
    ensures var s1 := Step(s, Move(u, Adopt(k)));
            && Inv(s1) && s.threads[u].pc == Idle && s.threads[u].heap.Live?
            && s1 == s.(spans := s.spans[k := s.spans[k].(filing := Popped(u))], threads := s.threads[u := s.threads[u].(pc := SetOwner(k))])
  {
    StepKeeps(s, Move(u, Adopt(k)));
  }

  lemma StoresOwner(s: State, u: nat, k: nat)
    requires Inv(s) && u in s.threads && s.threads[u].pc == SetOwner(k)
    ensures var s1 := Step(s, Move(u, StoreOwner));
            && Inv(s1) && s.threads[u].heap.Live? && k < |s.spans|
            && s1 == s.(spans := s.spans[k := s.spans[k].(owner := s.threads[u].heap.id, filing := Owned(u))],
                        threads := s.threads[u := s.threads[u].(pc := Idle)])
  {
    assert ThreadOk(s, u);
    StepKeeps(s, Move(u, StoreOwner));
  }

  lemma SameThreads(s: State, u: nat, k: nat, s1: State, s2: State)
    requires u in s.threads && s.threads[u].pc == Idle
    requires s1.threads == s.threads[u := s.threads[u].(pc := SetOwner(k))] && s2.threads == s1.threads[u := s1.threads[u].(pc := Idle)]
    ensures s2.threads == s.threads
  {}

  // A live thread that adopts a span owns it two steps later, with everything in it as it was; a
  // drain it runs then frees what others left pending and marked.
  lemma AdoptionTakesOver(s: State, u: nat, k: nat)
    requires Inv(s) && Allowed(s, u, Adopt(k))
    ensures var s' := Run(s, [Move(u, Adopt(k)), Move(u, StoreOwner)]);
            && Inv(s') && s'.threads == s.threads && s'.held == s.held && s'.ledger == s.ledger && |s'.spans| == |s.spans|
            && s'.spans[k] == s.spans[k].(owner := s.threads[u].heap.id, filing := Owned(u))
            && Allowed(s', u, Drain(k))
  {
    var a, b := Move(u, Adopt(k)), Move(u, StoreOwner);
    Adopts(s, u, k);
    StoresOwner(Step(s, a), u, k);
    assert [] + [a] == [a] && [a] + [b] == [a, b];
    RunOn(s, [], a);
    RunOn(s, [a], b);
    SameThreads(s, u, k, Step(s, a), Step(Step(s, a), b));
  }
}
