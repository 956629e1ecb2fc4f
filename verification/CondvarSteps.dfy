/** One thread's step of the condition variable keeps the invariant, case by case: first the
    shared words, then what the step may have changed for everybody else. */
module CondvarSteps {
  import opened Arithmetic
  import opened Tally
  import opened Condvar

  // ---------------------------------------------------------------- wrapped arithmetic

  lemma WrapExact(a: nat, b: nat)
    requires a - b < WORD / 2 && b - a < WORD / 2
    ensures WrappedAbove(a % WORD, b) <==> a > b
  {
    var d := a - b;
    ModShift(a, b);
  }

  lemma ModShift(a: nat, b: nat)
    ensures (a % WORD + WORD - b % WORD) % WORD == (a - b) % WORD
  {
    var q := a / WORD - b / WORD - 1;
    assert a - b == q * WORD + (a % WORD + WORD - b % WORD);
    ModPeriod(a % WORD + WORD - b % WORD, q);
  }

  lemma ModPeriod(x: int, q: int)
    ensures (q * WORD + x) % WORD == x % WORD
    decreases if q < 0 then -q else q
  {
    if q > 0 { ModPeriod(x, q - 1); assert (q * WORD + x) == ((q - 1) * WORD + x) + WORD; }
    if q < 0 { ModPeriod(x, q + 1); assert (q * WORD + x) == ((q + 1) * WORD + x) - WORD; }
  }

  lemma ModWrapLeft(a: nat, b: nat)
    requires 0 <= a - b < WORD
    ensures (a + WORD - b % WORD) % WORD == a - b
  {
    var q := b / WORD + 1;
    assert a + WORD - b % WORD == q * WORD + (a - b);
    ModPeriod(a - b, q);
  }

  lemma WrapDown(count: nat)
    requires count > 0
    ensures WrapAdd(count % WORD, WORD - 1) == (count - 1) % WORD
  {}

  lemma WrapUp(count: nat, amount: nat)
    ensures WrapAdd(count % WORD, amount) == (count + amount) % WORD
  {
    var q := count / WORD;
    assert count + amount == q * WORD + (count % WORD + amount);
    ModPeriod(count % WORD + amount, q);
  }

  lemma SameResidue(a: nat, b: nat)
    requires a % WORD == b % WORD && a - b < WORD && b - a < WORD
    ensures a == b
  {}

  lemma CountDown(size: nat)
    requires 0 < size < WORD
    ensures WrapAdd(size, WORD - 1) == size - 1
  {}

  // ---------------------------------------------------------------- joining and confirming

  // The history a step leaves alone stays accountable.
  lemma SamePast(h: History, h': History, ticket: nat, ticket': nat)
    requires PastOk(h, ticket) && ticket <= ticket'
    requires h'.bounds == h.bounds && h'.matched == h.matched && h'.stamps == h.stamps
    ensures PastOk(h', ticket')
  {}

  predicate LeavesPast(s: Shared, s': Shared) {
    && s'.past.bounds == s.past.bounds && s'.past.matched == s.past.matched && s'.past.stamps == s.past.stamps
    && s.ticket <= s'.ticket
  }

  lemma QuietStep(s: Shared, l: Local, call: Call, flaky: bool)
    requires !l.Awaits? && !l.Holds?
    ensures LeavesPast(s, Next(s, l, call, flaky).0)
  {}

  lemma QuietPast(s: Shared, l: Local, call: Call, flaky: bool)
    requires PastOk(s.past, s.ticket) && LeavesPast(s, Next(s, l, call, flaky).0)
    ensures PastOk(Next(s, l, call, flaky).0.past, Next(s, l, call, flaky).0.ticket)
  {
    SamePast(s.past, Next(s, l, call, flaky).0.past, s.ticket, Next(s, l, call, flaky).0.ticket);
  }

  // The next ticket has not departed yet.
  lemma TicketFresh(h: History, ticket: nat)
    requires PastOk(h, ticket)
    ensures ticket !in h.matched
  {}

  lemma IdleCore(s: Shared, l: Local, call: Call, flaky: bool)
    requires CoreOk(s) && LocalOk(s, l) && l.Idle?
    ensures CoreOk(Next(s, l, call, flaky).0)
  {}

  lemma IdleMoves(s: Shared, l: Local, call: Call, flaky: bool)
    requires ShapeOk(s) && s.ticket !in s.past.matched && LocalOk(s, l) && l.Idle?
    requires ShapeOk(Next(s, l, call, flaky).0)
    ensures Moves(s, l, Next(s, l, call, flaky).0, Next(s, l, call, flaky).1)
  {}

  lemma JoinCore(s: Shared, l: Local, call: Call, flaky: bool)
    requires CoreOk(s) && LocalOk(s, l) && l.Joins?
    ensures CoreOk(Next(s, l, call, flaky).0)
  {}

  lemma JoinMoves(s: Shared, l: Local, call: Call, flaky: bool)
    requires ShapeOk(s) && LocalOk(s, l) && l.Joins?
    requires ShapeOk(Next(s, l, call, flaky).0)
    ensures Moves(s, l, Next(s, l, call, flaky).0, Next(s, l, call, flaky).1)
  {}

  lemma ConfirmCore(s: Shared, l: Local, call: Call, flaky: bool)
    requires CoreOk(s) && LocalOk(s, l) && l.Confirms?
    requires s.waiters > 0
    ensures CoreOk(Next(s, l, call, flaky).0)
  {}

  lemma ConfirmMoves(s: Shared, l: Local, call: Call, flaky: bool)
    requires ShapeOk(s) && LocalOk(s, l) && l.Confirms?
    requires s.waiters > 0
    requires ShapeOk(Next(s, l, call, flaky).0)
    ensures Moves(s, l, Next(s, l, call, flaky).0, Next(s, l, call, flaky).1)
  {}

  lemma ReferencesCore(s: Shared, l: Local, call: Call, flaky: bool)
    requires CoreOk(s) && LocalOk(s, l) && l.LoadReferences?
    ensures CoreOk(Next(s, l, call, flaky).0)
  {}

  lemma ReferencesMoves(s: Shared, l: Local, call: Call, flaky: bool)
    requires ShapeOk(s) && LocalOk(s, l) && l.LoadReferences?
    requires ShapeOk(Next(s, l, call, flaky).0)
    ensures Moves(s, l, Next(s, l, call, flaky).0, Next(s, l, call, flaky).1)
  {}

  // ---------------------------------------------------------------- the waiting loop

  // What the word of a waiter's slot holds, while its group is open.
  lemma LoadRange(s: Shared, p: nat, slot: bool, group: nat)
    requires SharedOk(s) && InGroup(s, p, slot, group)
    ensures AwaitOk(s, p, group, ReadStart(s.signals.At(slot), s.past.counts.At(slot)))
  {
    if s.start <= p && group == s.K() { assert slot == s.One(); }
    if group == s.K() + 1 { assert slot == s.Two(); }
  }

  // The wrapped 32-bit test answers as the unbounded one, even when the two loads straddle a
  // group switch.
  lemma WrappedTestExact(s: Shared, p: nat, slot: bool, group: nat, available: nat, exact: nat)
    requires SharedOk(s) && LocalOk(s, Awaits(p, slot, group, ReadStart(available, exact))) && s.start <= p
    ensures WrappedAbove(available, s.start) <==> exact > s.start
  {
    var bounds := s.past.bounds;
    assert bounds[group - 1] <= s.start;
    if exact <= bounds[group - 1] {
      if group >= 2 { assert bounds[group] - bounds[group - 1] < MAX_THREADS && bounds[group - 1] - bounds[group - 2] < MAX_THREADS; }
      WrapExact(exact, s.start);
    } else {
      WrapExact(exact, s.start);
    }
  }

  // A test that passes was made on a count of the waiter's own group.
  lemma TestPassed(s: Shared, p: nat, slot: bool, group: nat, available: nat, exact: nat)
    requires SharedOk(s) && LocalOk(s, Awaits(p, slot, group, ReadStart(available, exact))) && s.start <= p
    ensures exact > s.start ==> AwaitOk(s, p, group, Take(available, exact))
  {
    var bounds := s.past.bounds;
    assert bounds[group - 1] <= s.start;
    if exact > s.start { assert group <= Live(s) && bounds[group] <= exact <= bounds[group + 1]; }
  }

  // A waiter that stays in the loop changes nothing but its own loaded values.
  lemma StayMoves(s: Shared, l: Local, call: Call, flaky: bool)
    requires ShapeOk(s) && LocalOk(s, l) && l.Awaits?
    requires Next(s, l, call, flaky).0 == s && Next(s, l, call, flaky).1.Awaits?
    requires AwaitOk(s, l.position, l.group, Next(s, l, call, flaky).1.await)
    ensures Moves(s, l, Next(s, l, call, flaky).0, Next(s, l, call, flaky).1)
  {}

  ghost predicate FreeIn(h: History, group: nat) {
    && 1 <= group < |h.bounds| - 1
    && h.bounds[group] <= FirstFree(h.matched.Values, h.bounds[group]) < h.bounds[group + 1]
    && FirstFree(h.matched.Values, h.bounds[group]) < |h.stamps|
    && FirstFree(h.matched.Values, h.bounds[group]) !in h.matched.Values
  }

  lemma DepartPast(h: History, ticket: nat, p: nat, group: nat)
    requires BoundsOk(h.bounds) && PastOk(h, ticket) && FreeIn(h, group)
    requires h.bounds[group] <= p < h.bounds[group + 1] && p !in h.matched
    ensures PastOk(h.(matched := h.matched[p := FirstFree(h.matched.Values, h.bounds[group])]), ticket)
  {
    var d := FirstFree(h.matched.Values, h.bounds[group]);
    forall j | 0 <= j < |h.bounds| ensures p < h.bounds[j] <==> d < h.bounds[j] {
      if j > group + 1 { assert h.bounds[group + 1] < h.bounds[j]; }
      else if 1 <= j < group { assert h.bounds[j] < h.bounds[group]; }
    }
    assert h.stamps[d] >= h.bounds[group + 1];
  }

  // A closed group has a signal for every member, so one is left for a member still inside.
  lemma FreeInClosed(h: History, ticket: nat, p: nat, group: nat)
    requires BoundsOk(h.bounds) && PastOk(h, ticket) && 1 <= group < |h.bounds| - 1
    requires h.bounds[group] <= p < h.bounds[group + 1] && p !in h.matched && h.bounds[group + 1] <= |h.stamps|
    ensures FreeIn(h, group)
  {
    var lo, hi := h.bounds[group], h.bounds[group + 1];
    var keys := Range(lo, hi) - {p};
    forall q | q in h.matched && lo <= h.matched[q] < hi ensures q in keys {
      assert !(q < h.bounds[group]) && q < h.bounds[group + 1];
    }
    FreeSignal(h.matched, lo, hi, keys);
  }

  // An open group whose word still shows a signal has delivered more than was taken.
  lemma FreeInOpen(h: History, ticket: nat, group: nat)
    requires BoundsOk(h.bounds) && PastOk(h, ticket) && 1 <= group == |h.bounds| - 2
    requires h.bounds[group] + |Taken(h.matched, h.bounds[group])| < |h.stamps| <= h.bounds[group + 1]
    ensures FreeIn(h, group)
  {
    var lo := h.bounds[group];
    forall q | q in h.matched && lo <= h.matched[q] < |h.stamps| ensures q in Taken(h.matched, lo) {
      assert !(q < h.bounds[group]);
    }
    FreeSignal(h.matched, lo, |h.stamps|, Taken(h.matched, lo));
  }

  lemma TakenGrows(matched: map<nat, nat>, p: nat, d: nat, start: nat)
    requires p !in matched
    ensures |Taken(matched[p := d], start)| == |Taken(matched, start)| + if p >= start then 1 else 0
  {
    var more := Taken(matched[p := d], start);
    if p >= start { assert more == Taken(matched, start) + {p}; }
    else { assert more == Taken(matched, start); }
  }

  // A waiter before group one's start belongs to a group that has all its signals.
  lemma ClosedGroup(s: Shared, p: nat, slot: bool, group: nat)
    requires SharedOk(s) && InGroup(s, p, slot, group) && p < s.start
    ensures group <= s.K() && s.past.bounds[group + 1] <= s.Delivered()
    ensures !s.past.stage.Closed? ==> p < s.A()
  {}

  lemma DepartShared(s: Shared, p: nat, group: nat, d: nat)
    requires SharedOk(s) && p !in s.past.matched && (s.past.stage.Closed? || p < s.A())
    requires PastOk(s.past.(matched := s.past.matched[p := d]), s.ticket)
    ensures SharedOk(s.(past := s.past.(matched := s.past.matched[p := d])))
  {
    TakenGrows(s.past.matched, p, d, s.A());
  }

  // Does this step take the waiter out of the loop because its group was closed?
  predicate Leaving(s: Shared, l: Local) {
    l.Awaits? && l.await.ReadStart? && l.position < s.start
  }

  lemma LeaveNext(s: Shared, l: Local, call: Call, flaky: bool)
    requires Leaving(s, l) && l.group < |s.past.bounds|
    ensures var d := FirstFree(s.past.matched.Values, s.past.bounds[l.group]);
            Next(s, l, call, flaky).0 == s.(past := s.past.(matched := s.past.matched[l.position := d]))
  {}

  lemma CloseShared(s: Shared, p: nat, slot: bool, group: nat)
    requires SharedOk(s) && InGroup(s, p, slot, group) && p < s.start
    ensures group < |s.past.bounds|
    ensures var d := FirstFree(s.past.matched.Values, s.past.bounds[group]);
            SharedOk(s.(past := s.past.(matched := s.past.matched[p := d])))
  {
    ClosedGroup(s, p, slot, group);
    FreeInClosed(s.past, s.ticket, p, group);
    DepartPast(s.past, s.ticket, p, group);
    DepartShared(s, p, group, FirstFree(s.past.matched.Values, s.past.bounds[group]));
  }

  lemma LeaveShared(s: Shared, l: Local, call: Call, flaky: bool)
    requires SharedOk(s) && LocalOk(s, l) && Leaving(s, l)
    ensures SharedOk(Next(s, l, call, flaky).0) && l.group < |s.past.bounds|
  {
    CloseShared(s, l.position, l.slot, l.group);
    LeaveNext(s, l, call, flaky);
  }

  // Does this step take a signal?
  predicate Taking(s: Shared, l: Local, flaky: bool) {
    l.Awaits? && l.await.Take? && s.signals.At(l.slot) == l.await.available && !flaky
  }

  lemma DepartMoves(s: Shared, l: Local, call: Call, flaky: bool)
    requires ShapeOk(s) && ShapeOk(Next(s, l, call, flaky).0) && LocalOk(s, l)
    requires (Leaving(s, l) || Taking(s, l, flaky)) && l.group < |s.past.bounds|
    ensures Moves(s, l, Next(s, l, call, flaky).0, Next(s, l, call, flaky).1)
  {}

  // The word of a waiter that saw a signal of its own group still belongs to that group as long
  // as it has not moved past that group's end.
  lemma HomeRange(s: Shared, p: nat, slot: bool, group: nat, exact: nat)
    requires SharedOk(s) && InGroup(s, p, slot, group) && AwaitOk(s, p, group, Take(exact % WORD, exact))
    ensures s.past.bounds[group] <= s.past.counts.At(slot)
    ensures s.past.counts.At(slot) <= s.past.bounds[group + 1] ==> group + 1 >= Live(s)
  {
    if slot == s.One() { HomeRangeOne(s, p, slot, group, exact); } else { HomeRangeTwo(s, p, slot, group, exact); }
  }

  lemma HomeRangeOne(s: Shared, p: nat, slot: bool, group: nat, exact: nat)
    requires SharedOk(s) && InGroup(s, p, slot, group) && AwaitOk(s, p, group, Take(exact % WORD, exact)) && slot == s.One()
    ensures s.past.bounds[group] <= s.past.counts.At(slot)
    ensures s.past.counts.At(slot) <= s.past.bounds[group + 1] ==> group + 1 >= Live(s)
  {
    assert Live(s) == s.K() ==> s.past.bounds[Live(s)] <= s.past.counts.At(slot);
  }

  lemma HomeRangeTwo(s: Shared, p: nat, slot: bool, group: nat, exact: nat)
    requires SharedOk(s) && InGroup(s, p, slot, group) && AwaitOk(s, p, group, Take(exact % WORD, exact)) && slot == s.Two()
    ensures s.past.bounds[group] <= s.past.counts.At(slot)
    ensures s.past.counts.At(slot) <= s.past.bounds[group + 1] ==> group + 1 >= Live(s)
  {}

  // Equal 32-bit words are equal counts exactly when the count has not come 2^32 further. It is
  // never above the ticket count.
  lemma TakeExact(s: Shared, p: nat, slot: bool, group: nat, available: nat, exact: nat)
    requires SharedOk(s) && LocalOk(s, Awaits(p, slot, group, Take(available, exact)))
    requires s.signals.At(slot) == available
    ensures s.past.counts.At(slot) == exact <==> s.past.counts.At(slot) < exact + WORD
    ensures s.past.counts.At(slot) == exact ==> group + 1 >= Live(s)
    ensures s.past.counts.At(slot) <= s.ticket
  {
    HomeRange(s, p, slot, group, exact);
    var count := s.past.counts.At(slot);
    assert count <= s.ticket;
    assert s.past.bounds[group + 1] - s.past.bounds[group] < MAX_THREADS;
    if count < exact + WORD { SameResidue(count, exact); }
  }

  lemma FreeToTake(s: Shared, p: nat, slot: bool, group: nat)
    requires SharedOk(s) && InGroup(s, p, slot, group) && group <= Live(s) <= group + 1
    requires s.past.counts.At(slot) > s.past.bounds[group]
    ensures FreeIn(s.past, group)
  {
    if group == s.K() && !s.past.stage.Closed? {
      assert slot == s.One();
      FreeInOpen(s.past, s.ticket, group);
    } else {
      FreeInClosed(s.past, s.ticket, p, group);
    }
  }

  lemma TakeOneIs(s: Shared, p: nat, slot: bool, group: nat)
    requires ShapeOk(s) && InGroup(s, p, slot, group) && group < |s.past.bounds|
    requires s.past.counts.At(slot) > 0
    ensures var d := FirstFree(s.past.matched.Values, s.past.bounds[group]);
            TakeOne(s, slot, p, group) == s.(signals := s.signals.With(slot, (s.past.counts.At(slot) - 1) % WORD),
              past := s.past.(counts := s.past.counts.With(slot, s.past.counts.At(slot) - 1), matched := s.past.matched[p := d]))
  {
    WrapDown(s.past.counts.At(slot));
  }

  // Taking from open group one.
  lemma TakeOpenWords(s: Shared, s': Shared, p: nat, slot: bool, group: nat, taken: map<nat, nat>)
    requires CoreOk(s) && InGroup(s, p, slot, group) && group == s.K() == Live(s)
    requires s.past.counts.At(slot) > s.past.bounds[group]
    requires |Taken(taken, s.A())| == |Taken(s.past.matched, s.A())| + 1
    requires s' == s.(signals := s.signals.With(slot, (s.past.counts.At(slot) - 1) % WORD),
              past := s.past.(counts := s.past.counts.With(slot, s.past.counts.At(slot) - 1), matched := taken))
    ensures CoreOk(s')
  {
    assert slot == s.One();
  }

  // A late take from a group that was closed meanwhile.
  lemma TakeLateWords(s: Shared, s': Shared, p: nat, slot: bool, group: nat, taken: map<nat, nat>)
    requires CoreOk(s) && InGroup(s, p, slot, group) && group < s.K() && group <= Live(s) <= group + 1
    requires s.past.counts.At(slot) > s.past.bounds[group]
    requires |Taken(taken, s.A())| == |Taken(s.past.matched, s.A())|
    requires s' == s.(signals := s.signals.With(slot, (s.past.counts.At(slot) - 1) % WORD),
              past := s.past.(counts := s.past.counts.With(slot, s.past.counts.At(slot) - 1), matched := taken))
    ensures CoreOk(s')
  {
    if group + 1 == s.K() { assert slot == s.Two(); }
    else { assert slot == s.One() && s.past.stage.Flipped?; }
  }

  lemma TakeNext(s: Shared, l: Local, call: Call, flaky: bool)
    requires Taking(s, l, flaky)
    ensures Next(s, l, call, flaky).0 == TakeOne(s, l.slot, l.position, l.group)
  {}

  lemma TakeCore(s: Shared, l: Local, call: Call, flaky: bool)
    requires CoreOk(s) && BoundsOk(s.past.bounds) && LocalOk(s, l) && Taking(s, l, flaky)
    requires l.group < |s.past.bounds| && s.past.counts.At(l.slot) > s.past.bounds[l.group]
    requires l.group <= Live(s) <= l.group + 1
    ensures CoreOk(Next(s, l, call, flaky).0)
  {
    TakeNext(s, l, call, flaky);
    TakeOneCore(s, l.position, l.slot, l.group);
  }

  lemma TakeOneCore(s: Shared, p: nat, slot: bool, group: nat)
    requires CoreOk(s) && BoundsOk(s.past.bounds) && InGroup(s, p, slot, group)
    requires group < |s.past.bounds| && s.past.counts.At(slot) > s.past.bounds[group]
    requires group <= Live(s) <= group + 1
    ensures CoreOk(TakeOne(s, slot, p, group))
  {
    var d := FirstFree(s.past.matched.Values, s.past.bounds[group]);
    TakeOneIs(s, p, slot, group);
    TakenGrows(s.past.matched, p, d, s.A());
    TakeWords(s, TakeOne(s, slot, p, group), p, slot, group, s.past.matched[p := d]);
  }

  lemma TakeWords(s: Shared, s': Shared, p: nat, slot: bool, group: nat, taken: map<nat, nat>)
    requires CoreOk(s) && BoundsOk(s.past.bounds) && InGroup(s, p, slot, group) && group <= Live(s) <= group + 1
    requires s.past.counts.At(slot) > s.past.bounds[group]
    requires |Taken(taken, s.A())| == |Taken(s.past.matched, s.A())| + if p >= s.A() then 1 else 0
    requires s' == s.(signals := s.signals.With(slot, (s.past.counts.At(slot) - 1) % WORD),
              past := s.past.(counts := s.past.counts.With(slot, s.past.counts.At(slot) - 1), matched := taken))
    ensures CoreOk(s')
  {
    if group == s.K() { TakeOpenWords(s, s', p, slot, group, taken); }
    else {
      BeforeGroupOne(s, p, slot, group);
      TakeLateWords(s, s', p, slot, group, taken);
    }
  }

  lemma TakePast(s: Shared, l: Local, call: Call, flaky: bool)
    requires ShapeOk(s) && PastOk(s.past, s.ticket) && LocalOk(s, l) && Taking(s, l, flaky) && FreeIn(s.past, l.group)
    ensures PastOk(Next(s, l, call, flaky).0.past, Next(s, l, call, flaky).0.ticket)
  {
    var d := FirstFree(s.past.matched.Values, s.past.bounds[l.group]);
    DepartPast(s.past, s.ticket, l.position, l.group);
    SamePast(s.past.(matched := s.past.matched[l.position := d]), Next(s, l, call, flaky).0.past, s.ticket, s.ticket);
  }

  lemma TakeShared(s: Shared, l: Local, call: Call, flaky: bool)
    requires SharedOk(s) && LocalOk(s, l) && Taking(s, l, flaky) && s.past.counts.At(l.slot) < l.await.exact + WORD
    ensures CoreOk(Next(s, l, call, flaky).0)
    ensures PastOk(Next(s, l, call, flaky).0.past, Next(s, l, call, flaky).0.ticket)
    ensures l.group < |s.past.bounds|
  {
    TakeExact(s, l.position, l.slot, l.group, l.await.available, l.await.exact);
    FreeToTake(s, l.position, l.slot, l.group);
    TakeCore(s, l, call, flaky);
    TakePast(s, l, call, flaky);
  }

  lemma BeforeGroupOne(s: Shared, p: nat, slot: bool, group: nat)
    requires ShapeOk(s) && BoundsOk(s.past.bounds) && InGroup(s, p, slot, group) && group < s.K()
    ensures p < s.A()
  {}

  lemma AwaitShared(s: Shared, l: Local, call: Call, flaky: bool)
    requires SharedOk(s) && LocalOk(s, l) && l.Awaits?
    requires l.await.Take? ==> s.past.counts.At(l.slot) < l.await.exact + WORD
    ensures SharedOk(Next(s, l, call, flaky).0)
    ensures Leaving(s, l) || Taking(s, l, flaky) ==> l.group < |s.past.bounds|
  {
    if Leaving(s, l) { LeaveShared(s, l, call, flaky); }
    else if Taking(s, l, flaky) { TakeShared(s, l, call, flaky); }
  }

  lemma LoadMoves(s: Shared, l: Local, call: Call, flaky: bool)
    requires SharedOk(s) && LocalOk(s, l) && l.Awaits? && l.await.Load?
    ensures Moves(s, l, Next(s, l, call, flaky).0, Next(s, l, call, flaky).1)
  {
    LoadRange(s, l.position, l.slot, l.group);
    StayMoves(s, l, call, flaky);
  }

  lemma TestNext(s: Shared, l: Local, call: Call, flaky: bool)
    requires SharedOk(s) && LocalOk(s, l) && l.Awaits? && l.await.ReadStart? && s.start <= l.position
    ensures Next(s, l, call, flaky).0 == s && Next(s, l, call, flaky).1.Awaits?
    ensures AwaitOk(s, l.position, l.group, Next(s, l, call, flaky).1.await)
  {
    WrappedTestExact(s, l.position, l.slot, l.group, l.await.available, l.await.exact);
    TestPassed(s, l.position, l.slot, l.group, l.await.available, l.await.exact);
  }

  lemma AwaitMoves(s: Shared, l: Local, call: Call, flaky: bool)
    requires SharedOk(s) && LocalOk(s, l) && l.Awaits? && ShapeOk(Next(s, l, call, flaky).0)
    requires Leaving(s, l) || Taking(s, l, flaky) ==> l.group < |s.past.bounds|
    ensures Moves(s, l, Next(s, l, call, flaky).0, Next(s, l, call, flaky).1)
  {
    match l.await
    case Load => LoadMoves(s, l, call, flaky);
    case ReadStart(_, _) => if Leaving(s, l) { DepartMoves(s, l, call, flaky); } else { TestNext(s, l, call, flaky); StayMoves(s, l, call, flaky); }
    case Take(_, _) => if Taking(s, l, flaky) { DepartMoves(s, l, call, flaky); } else { StayMoves(s, l, call, flaky); }
  }

  // ---------------------------------------------------------------- the signaler lock

  lemma LockReadCore(s: Shared, l: Local, call: Call, flaky: bool)
    requires CoreOk(s) && LocalOk(s, l) && l.Locks? && (l.lock.LockLoad? || l.lock.LockPark?)
    ensures CoreOk(Next(s, l, call, flaky).0)
  {}

  lemma LockReadMoves(s: Shared, l: Local, call: Call, flaky: bool)
    requires ShapeOk(s) && (s.original.lock == Unlocked ==> s.past.stage == Steady)
    requires LocalOk(s, l) && l.Locks? && (l.lock.LockLoad? || l.lock.LockPark?) && ShapeOk(Next(s, l, call, flaky).0)
    ensures Moves(s, l, Next(s, l, call, flaky).0, Next(s, l, call, flaky).1)
  {}

  // Only the lock bits of the size word change.
  lemma LockBitsOnly(s: Shared, lock: SignalerLock)
    requires CoreOk(s) && lock != Unlocked
    ensures CoreOk(s.(original := s.original.(lock := lock)))
  {}

  lemma LockFastCore(s: Shared, l: Local, call: Call, flaky: bool)
    requires CoreOk(s) && LocalOk(s, l) && l.Locks? && l.lock.LockFast?
    ensures CoreOk(Next(s, l, call, flaky).0)
  {
    LockBitsOnly(s, Locked);
  }

  lemma LockFastMoves(s: Shared, l: Local, call: Call, flaky: bool)
    requires ShapeOk(s) && (s.original.lock == Unlocked ==> s.past.stage == Steady)
    requires LocalOk(s, l) && l.Locks? && l.lock.LockFast? && ShapeOk(Next(s, l, call, flaky).0)
    ensures Moves(s, l, Next(s, l, call, flaky).0, Next(s, l, call, flaky).1)
  {}

  lemma LockSlowCore(s: Shared, l: Local, call: Call, flaky: bool)
    requires CoreOk(s) && LocalOk(s, l) && l.Locks? && l.lock.LockSlow?
    ensures CoreOk(Next(s, l, call, flaky).0)
  {
    LockBitsOnly(s, LockedWithWaiters);
  }

  lemma LockSlowMoves(s: Shared, l: Local, call: Call, flaky: bool)
    requires ShapeOk(s) && (s.original.lock == Unlocked ==> s.past.stage == Steady)
    requires LocalOk(s, l) && l.Locks? && l.lock.LockSlow? && ShapeOk(Next(s, l, call, flaky).0)
    ensures Moves(s, l, Next(s, l, call, flaky).0, Next(s, l, call, flaky).1)
  {}

  lemma LockCore(s: Shared, l: Local, call: Call, flaky: bool)
    requires CoreOk(s) && LocalOk(s, l) && l.Locks?
    ensures CoreOk(Next(s, l, call, flaky).0)
  {
    match l.lock
    case LockLoad | LockPark => LockReadCore(s, l, call, flaky);
    case LockFast(_) => LockFastCore(s, l, call, flaky);
    case LockSlow(_) => LockSlowCore(s, l, call, flaky);
  }

  lemma LockMoves(s: Shared, l: Local, call: Call, flaky: bool)
    requires ShapeOk(s) && (s.original.lock == Unlocked ==> s.past.stage == Steady)
    requires LocalOk(s, l) && l.Locks? && ShapeOk(Next(s, l, call, flaky).0)
    ensures Moves(s, l, Next(s, l, call, flaky).0, Next(s, l, call, flaky).1)
  {
    match l.lock
    case LockLoad | LockPark => LockReadMoves(s, l, call, flaky);
    case LockFast(_) => LockFastMoves(s, l, call, flaky);
    case LockSlow(_) => LockSlowMoves(s, l, call, flaky);
  }

  // ---------------------------------------------------------------- the lock holder

  // What the holder may rely on: it holds the lock, and few tickets are unsignalled.
  predicate HolderReady(s: Shared) {
    s.original.lock != Unlocked && s.ticket < s.Delivered() + MAX_THREADS
  }

  lemma AddStartCore(s: Shared, l: Local, call: Call, flaky: bool)
    requires CoreOk(s) && LocalOk(s, l) && l.Holds? && l.hold.AddStart?
    requires HolderReady(s)
    ensures CoreOk(Next(s, l, call, flaky).0)
  {}

  lemma AddStartMoves(s: Shared, l: Local, call: Call, flaky: bool)
    requires ShapeOk(s) && SizesOk(s) && LocalOk(s, l) && l.Holds? && l.hold.AddStart?
    requires HolderReady(s)
    requires ShapeOk(Next(s, l, call, flaky).0)
    ensures Moves(s, l, Next(s, l, call, flaky).0, Next(s, l, call, flaky).1)
  {}

  lemma FlipBounds(bounds: seq<nat>, end: nat)
    requires BoundsOk(bounds) && bounds[|bounds| - 1] < end < bounds[|bounds| - 1] + MAX_THREADS
    ensures BoundsOk(bounds + [end])
  {}

  lemma FlipPast(h: History, ticket: nat)
    requires PastOk(h, ticket) && |h.stamps| == h.bounds[|h.bounds| - 1] < ticket < h.bounds[|h.bounds| - 1] + MAX_THREADS
    ensures PastOk(h.(bounds := h.bounds + [ticket], stage := Flipped), ticket)
  {
    FlipBounds(h.bounds, ticket);
  }

  lemma FlipCore(s: Shared, l: Local, call: Call, flaky: bool)
    requires CoreOk(s) && LocalOk(s, l) && l.Holds? && l.hold.Flip?
    requires HolderReady(s)
    ensures CoreOk(Next(s, l, call, flaky).0)
  {
    FlippedShape(s);
    FlippedSizes(s);
    FlippedWords(s);
  }

  // The groups exchanged, before the new group one's words are set up.
  function FlippedOver(s: Shared): Shared {
    s.(slot := s.One(), past := s.past.(bounds := s.past.bounds + [s.ticket], stage := Flipped))
  }

  lemma FlippedShape(s: Shared)
    requires CoreOk(s) && s.past.stage.Closed? && HolderReady(s)
    ensures ShapeOk(FlippedOver(s))
  {}

  lemma FlippedSizes(s: Shared)
    requires CoreOk(s) && s.past.stage.Closed? && HolderReady(s) && ShapeOk(FlippedOver(s))
    ensures SizesOk(FlippedOver(s))
  {}

  lemma FlippedWords(s: Shared)
    requires CoreOk(s) && s.past.stage.Closed? && HolderReady(s) && ShapeOk(FlippedOver(s))
    ensures WordsOk(FlippedOver(s))
  {}

  lemma FlipMoves(s: Shared, l: Local, call: Call, flaky: bool)
    requires ShapeOk(s) && SizesOk(s) && LocalOk(s, l) && l.Holds? && l.hold.Flip?
    requires HolderReady(s)
    requires ShapeOk(Next(s, l, call, flaky).0)
    ensures Moves(s, l, Next(s, l, call, flaky).0, Next(s, l, call, flaky).1)
  {}

  // Nobody of the new group one can have left yet.
  lemma NoneTaken(h: History, ticket: nat, start: nat)
    requires PastOk(h, ticket) && |h.stamps| == start && start in h.bounds
    ensures Taken(h.matched, start) == {}
  {
    var j :| 0 <= j < |h.bounds| && h.bounds[j] == start;
    forall p | p in h.matched ensures p < start {
      assert h.matched[p] < h.bounds[j];
    }
  }

  lemma StoreSignalsCore(s: Shared, l: Local, call: Call, flaky: bool)
    requires CoreOk(s) && LocalOk(s, l) && l.Holds? && l.hold.StoreSignals?
    requires HolderReady(s)
    requires Taken(s.past.matched, s.A()) == {}
    ensures CoreOk(Next(s, l, call, flaky).0)
  {}

  lemma StoreSignalsMoves(s: Shared, l: Local, call: Call, flaky: bool)
    requires ShapeOk(s) && SizesOk(s) && LocalOk(s, l) && l.Holds? && l.hold.StoreSignals?
    requires HolderReady(s)
    requires ShapeOk(Next(s, l, call, flaky).0)
    ensures Moves(s, l, Next(s, l, call, flaky).0, Next(s, l, call, flaky).1)
  {
    ModWrapLeft(l.hold.end, s.start);
  }

  lemma SetLoadCore(s: Shared, l: Local, call: Call, flaky: bool)
    requires CoreOk(s) && LocalOk(s, l) && l.Holds? && l.hold.SetLoad?
    requires HolderReady(s)
    ensures CoreOk(Next(s, l, call, flaky).0)
  {}

  lemma SetLoadMoves(s: Shared, l: Local, call: Call, flaky: bool)
    requires ShapeOk(s) && SizesOk(s) && LocalOk(s, l) && l.Holds? && l.hold.SetLoad?
    requires HolderReady(s)
    requires ShapeOk(Next(s, l, call, flaky).0)
    ensures Moves(s, l, Next(s, l, call, flaky).0, Next(s, l, call, flaky).1)
  {}

  lemma SetCasCore(s: Shared, l: Local, call: Call, flaky: bool)
    requires CoreOk(s) && LocalOk(s, l) && l.Holds? && l.hold.SetCas?
    requires HolderReady(s)
    ensures CoreOk(Next(s, l, call, flaky).0)
  {
    SizeStored(s);
  }

  // With group one's size written the switch is one step from done.
  lemma SizeStored(s: Shared)
    requires CoreOk(s) && s.past.stage == Stored
    ensures CoreOk(s.(original := s.original.(size := s.B() - s.A()), past := s.past.(stage := Sized)))
    ensures s.original.size == s.B() - s.A() ==> CoreOk(s.(past := s.past.(stage := Sized)))
  {}

  lemma SetCasMoves(s: Shared, l: Local, call: Call, flaky: bool)
    requires ShapeOk(s) && SizesOk(s) && LocalOk(s, l) && l.Holds? && l.hold.SetCas?
    requires HolderReady(s)
    requires ShapeOk(Next(s, l, call, flaky).0)
    ensures Moves(s, l, Next(s, l, call, flaky).0, Next(s, l, call, flaky).1)
  {}

  lemma AddSizeCore(s: Shared, l: Local, call: Call, flaky: bool)
    requires CoreOk(s) && LocalOk(s, l) && l.Holds? && l.hold.AddSize?
    requires HolderReady(s)
    ensures CoreOk(Next(s, l, call, flaky).0)
  {
    SizeSettled(s);
    WrapSmall(l.hold.size);
  }

  lemma WrapSmall(size: nat)
    requires size < WORD
    ensures WrapAdd(0, size) == size
  {}

  // The switch done: group one's entry holds its whole size.
  lemma SizeSettled(s: Shared)
    requires CoreOk(s) && s.past.stage == Sized && s.original.lock != Unlocked
    ensures s.sizes.At(s.One()) == 0 && s.B() - s.A() < WORD && CoreOk(Settle(s, s.B() - s.A()))
  {}

  lemma AddSizeMoves(s: Shared, l: Local, call: Call, flaky: bool)
    requires ShapeOk(s) && SizesOk(s) && LocalOk(s, l) && l.Holds? && l.hold.AddSize?
    requires HolderReady(s)
    requires ShapeOk(Next(s, l, call, flaky).0)
    ensures Moves(s, l, Next(s, l, call, flaky).0, Next(s, l, call, flaky).1)
  {}

  lemma GivePast(h: History, ticket: nat, amount: nat)
    requires BoundsOk(h.bounds) && PastOk(h, ticket)
    requires h.bounds[|h.bounds| - 2] <= |h.stamps| && |h.stamps| + amount <= h.bounds[|h.bounds| - 1] <= ticket
    ensures PastOk(h.(stamps := h.stamps + seq(amount, _ => ticket)), ticket)
  {
    var stamps := h.stamps + seq(amount, _ => ticket);
    assert MatchedOk(h.bounds, h.matched, stamps);
  }

  lemma GiveCore(s: Shared, l: Local, call: Call, flaky: bool)
    requires CoreOk(s) && LocalOk(s, l) && l.Holds? && (l.hold.Deliver? || l.hold.Flush? || l.hold.DeliverAll?)
    requires HolderReady(s)
    ensures CoreOk(Next(s, l, call, flaky).0)
  {
    var amount := if l.hold.Deliver? then 1 else s.sizes.At(s.One());
    GiveAmount(s, amount);
    assert Next(s, l, call, flaky).0 == Give(s, amount);
  }

  lemma GiveAmount(s: Shared, amount: nat)
    requires CoreOk(s) && s.past.stage == Steady && s.original.lock != Unlocked && s.Delivered() + amount <= s.B()
    ensures CoreOk(Give(s, amount))
  {
    WrapUp(s.past.counts.At(s.One()), amount);
  }

  lemma DeliverMoves(s: Shared, l: Local, call: Call, flaky: bool)
    requires ShapeOk(s) && SizesOk(s) && LocalOk(s, l) && l.Holds? && l.hold.Deliver?
    requires HolderReady(s)
    requires ShapeOk(Next(s, l, call, flaky).0)
    ensures Moves(s, l, Next(s, l, call, flaky).0, Next(s, l, call, flaky).1)
  {}

  lemma FlushMoves(s: Shared, l: Local, call: Call, flaky: bool)
    requires ShapeOk(s) && SizesOk(s) && LocalOk(s, l) && l.Holds? && (l.hold.Flush? || l.hold.DeliverAll?)
    requires HolderReady(s)
    requires ShapeOk(Next(s, l, call, flaky).0)
    ensures Moves(s, l, Next(s, l, call, flaky).0, Next(s, l, call, flaky).1)
  {}

  lemma CountCore(s: Shared, l: Local, call: Call, flaky: bool)
    requires CoreOk(s) && LocalOk(s, l) && l.Holds? && l.hold.Count?
    requires HolderReady(s)
    ensures CoreOk(Next(s, l, call, flaky).0)
  {
    CountDown(s.sizes.At(s.One()));
  }

  lemma CountMoves(s: Shared, l: Local, call: Call, flaky: bool)
    requires ShapeOk(s) && SizesOk(s) && LocalOk(s, l) && l.Holds? && l.hold.Count?
    requires HolderReady(s)
    requires ShapeOk(Next(s, l, call, flaky).0)
    ensures Moves(s, l, Next(s, l, call, flaky).0, Next(s, l, call, flaky).1)
  {}

  lemma ZeroCore(s: Shared, l: Local, call: Call, flaky: bool)
    requires CoreOk(s) && LocalOk(s, l) && l.Holds? && (l.hold.Flushed? || l.hold.Zero?)
    requires HolderReady(s)
    ensures CoreOk(Next(s, l, call, flaky).0)
  {}

  lemma ZeroMoves(s: Shared, l: Local, call: Call, flaky: bool)
    requires ShapeOk(s) && SizesOk(s) && LocalOk(s, l) && l.Holds? && (l.hold.Flushed? || l.hold.Zero?)
    requires HolderReady(s)
    requires ShapeOk(Next(s, l, call, flaky).0)
    ensures Moves(s, l, Next(s, l, call, flaky).0, Next(s, l, call, flaky).1)
  {}

  // The wrapped emptiness test says exactly that no ticket up to the observed one is unsignalled.
  lemma EmptinessExact(s: Shared, next: nat)
    requires SharedOk(s) && s.past.stage == Steady && s.Delivered() == s.B() <= next <= s.ticket
    requires s.ticket - s.Delivered() < MAX_THREADS
    ensures NobodyWaits(s, next) <==> next == s.Delivered()
  {
    ModShift(next, s.B());
    ModWrapLeft(next, s.B());
  }

  lemma CheckMoves(s: Shared, l: Local, call: Call, flaky: bool)
    requires SharedOk(s) && LocalOk(s, l) && l.Holds? && l.hold.Check? && HolderReady(s)
    ensures Moves(s, l, Next(s, l, call, flaky).0, Next(s, l, call, flaky).1)
  {
    EmptinessExact(s, l.hold.next);
  }

  lemma DecideMoves(s: Shared, l: Local, call: Call, flaky: bool)
    requires ShapeOk(s) && SizesOk(s) && LocalOk(s, l) && l.Holds? && (l.hold.ReadSequence? || l.hold.Decide?) && HolderReady(s)
    ensures Moves(s, l, Next(s, l, call, flaky).0, Next(s, l, call, flaky).1)
  {}

  lemma ReleaseCore(s: Shared, l: Local, call: Call, flaky: bool)
    requires CoreOk(s) && LocalOk(s, l) && l.Holds? && l.hold.Release?
    requires HolderReady(s)
    ensures CoreOk(Next(s, l, call, flaky).0)
  {}

  lemma ReleaseMoves(s: Shared, l: Local, call: Call, flaky: bool)
    requires ShapeOk(s) && SizesOk(s) && LocalOk(s, l) && l.Holds? && l.hold.Release?
    requires HolderReady(s)
    requires ShapeOk(Next(s, l, call, flaky).0)
    ensures Moves(s, l, Next(s, l, call, flaky).0, Next(s, l, call, flaky).1)
  {}

  lemma HoldCore(s: Shared, l: Local, call: Call, flaky: bool)
    requires CoreOk(s) && LocalOk(s, l) && l.Holds? && HolderReady(s)
    requires l.hold.StoreSignals? ==> Taken(s.past.matched, s.A()) == {}
    ensures CoreOk(Next(s, l, call, flaky).0)
  {
    match l.hold
    case ReadSequence | Decide(_) | Check(_) =>
    case AddStart(_) => AddStartCore(s, l, call, flaky);
    case Flip(_) => FlipCore(s, l, call, flaky);
    case StoreSignals(_, _) => StoreSignalsCore(s, l, call, flaky);
    case SetLoad(_, _) => SetLoadCore(s, l, call, flaky);
    case SetCas(_, _, _) => SetCasCore(s, l, call, flaky);
    case AddSize(_, _) => AddSizeCore(s, l, call, flaky);
    case Deliver(_) | Flush(_) | DeliverAll(_) => GiveCore(s, l, call, flaky);
    case Count(_) => CountCore(s, l, call, flaky);
    case Flushed(_) | Zero(_) => ZeroCore(s, l, call, flaky);
    case Release(_) => ReleaseCore(s, l, call, flaky);
  }

  lemma QuietHold(s: Shared, l: Local, call: Call, flaky: bool)
    requires l.Holds? && !l.hold.Flip? && !l.hold.Deliver? && !l.hold.Flush? && !l.hold.DeliverAll?
    ensures LeavesPast(s, Next(s, l, call, flaky).0)
  {}

  lemma HoldPast(s: Shared, l: Local, call: Call, flaky: bool)
    requires SharedOk(s) && LocalOk(s, l) && l.Holds? && HolderReady(s)
    ensures PastOk(Next(s, l, call, flaky).0.past, Next(s, l, call, flaky).0.ticket)
  {
    match l.hold
    case Flip(_) => FlipPast(s.past, s.ticket);
    case Deliver(_) => DeliverPast(s, l, call, flaky);
    case Flush(_) | DeliverAll(_) => DeliverPast(s, l, call, flaky);
    case _ => QuietHold(s, l, call, flaky); QuietPast(s, l, call, flaky);
  }

  lemma DeliverPast(s: Shared, l: Local, call: Call, flaky: bool)
    requires SharedOk(s) && LocalOk(s, l) && l.Holds? && (l.hold.Deliver? || l.hold.Flush? || l.hold.DeliverAll?)
    requires HolderReady(s)
    ensures PastOk(Next(s, l, call, flaky).0.past, Next(s, l, call, flaky).0.ticket)
  {
    var amount := if l.hold.Deliver? then 1 else s.sizes.At(s.One());
    GivePast(s.past, s.ticket, amount);
    var given := s.past.(stamps := s.past.stamps + seq(amount, _ => s.ticket));
    SamePast(given, Next(s, l, call, flaky).0.past, s.ticket, s.ticket);
  }

  lemma HoldMoves(s: Shared, l: Local, call: Call, flaky: bool)
    requires SharedOk(s) && LocalOk(s, l) && l.Holds? && HolderReady(s)
    requires ShapeOk(Next(s, l, call, flaky).0)
    ensures Moves(s, l, Next(s, l, call, flaky).0, Next(s, l, call, flaky).1)
  {
    match l.hold
    case ReadSequence | Decide(_) => DecideMoves(s, l, call, flaky);
    case Check(_) => CheckMoves(s, l, call, flaky);
    case AddStart(_) => AddStartMoves(s, l, call, flaky);
    case Flip(_) => FlipMoves(s, l, call, flaky);
    case StoreSignals(_, _) => StoreSignalsMoves(s, l, call, flaky);
    case SetLoad(_, _) => SetLoadMoves(s, l, call, flaky);
    case SetCas(_, _, _) => SetCasMoves(s, l, call, flaky);
    case AddSize(_, _) => AddSizeMoves(s, l, call, flaky);
    case Deliver(_) => DeliverMoves(s, l, call, flaky);
    case Flush(_) | DeliverAll(_) => FlushMoves(s, l, call, flaky);
    case Count(_) => CountMoves(s, l, call, flaky);
    case Flushed(_) | Zero(_) => ZeroMoves(s, l, call, flaky);
    case Release(_) => ReleaseMoves(s, l, call, flaky);
  }

  // ---------------------------------------------------------------- all steps

  // A waiter compares and exchanges while the word's count is less than 2^32 above the one it
  // loaded; beyond that, equal words no longer mean equal counts (see CondvarLimits).
  predicate Timely(s: State, m: Move) {
    (m.tid in s.locals && s.locals[m.tid].Awaits? && s.locals[m.tid].await.Take?)
    ==> s.shared.past.counts.At(s.locals[m.tid].slot) < s.locals[m.tid].await.exact + WORD
  }

  lemma IdleKeeps(s: State, m: Move)
    requires Inv(s) && Timely(s, m) && m.tid in s.locals && s.locals[m.tid].Idle?
    ensures Inv(Step(s, m))
  {
    var l := s.locals[m.tid];
    TicketFresh(s.shared.past, s.shared.ticket);
    IdleCore(s.shared, l, m.call, m.flaky);
    QuietStep(s.shared, l, m.call, m.flaky);
    QuietPast(s.shared, l, m.call, m.flaky);
    IdleMoves(s.shared, l, m.call, m.flaky);
    Assemble(s, Step(s, m), m.tid, Next(s.shared, l, m.call, m.flaky).1);
  }

  lemma JoinKeeps(s: State, m: Move)
    requires Inv(s) && Timely(s, m) && m.tid in s.locals && s.locals[m.tid].Joins?
    ensures Inv(Step(s, m))
  {
    var l := s.locals[m.tid];
    JoinCore(s.shared, l, m.call, m.flaky);
    QuietStep(s.shared, l, m.call, m.flaky);
    QuietPast(s.shared, l, m.call, m.flaky);
    JoinMoves(s.shared, l, m.call, m.flaky);
    Assemble(s, Step(s, m), m.tid, Next(s.shared, l, m.call, m.flaky).1);
  }

  lemma ConfirmKeeps(s: State, m: Move)
    requires Inv(s) && Timely(s, m) && m.tid in s.locals && s.locals[m.tid].Confirms?
    ensures Inv(Step(s, m))
  {
    var l := s.locals[m.tid];
    Positive(s.locals, Referenced, m.tid);
    ConfirmCore(s.shared, l, m.call, m.flaky);
    QuietStep(s.shared, l, m.call, m.flaky);
    QuietPast(s.shared, l, m.call, m.flaky);
    ConfirmMoves(s.shared, l, m.call, m.flaky);
    Assemble(s, Step(s, m), m.tid, Next(s.shared, l, m.call, m.flaky).1);
  }

  lemma ReferencesKeeps(s: State, m: Move)
    requires Inv(s) && Timely(s, m) && m.tid in s.locals && s.locals[m.tid].LoadReferences?
    ensures Inv(Step(s, m))
  {
    var l := s.locals[m.tid];
    ReferencesCore(s.shared, l, m.call, m.flaky);
    QuietStep(s.shared, l, m.call, m.flaky);
    QuietPast(s.shared, l, m.call, m.flaky);
    ReferencesMoves(s.shared, l, m.call, m.flaky);
    Assemble(s, Step(s, m), m.tid, Next(s.shared, l, m.call, m.flaky).1);
  }

  lemma AwaitKeeps(s: State, m: Move)
    requires Inv(s) && Timely(s, m) && m.tid in s.locals && s.locals[m.tid].Awaits?
    ensures Inv(Step(s, m))
  {
    var l := s.locals[m.tid];
    AwaitShared(s.shared, l, m.call, m.flaky);
    AwaitMoves(s.shared, l, m.call, m.flaky);
    Assemble(s, Step(s, m), m.tid, Next(s.shared, l, m.call, m.flaky).1);
  }

  lemma LockKeeps(s: State, m: Move)
    requires Inv(s) && Timely(s, m) && m.tid in s.locals && s.locals[m.tid].Locks?
    ensures Inv(Step(s, m))
  {
    var l := s.locals[m.tid];
    LockCore(s.shared, l, m.call, m.flaky);
    QuietStep(s.shared, l, m.call, m.flaky);
    QuietPast(s.shared, l, m.call, m.flaky);
    LockMoves(s.shared, l, m.call, m.flaky);
    Assemble(s, Step(s, m), m.tid, Next(s.shared, l, m.call, m.flaky).1);
  }

  lemma HoldReady(s: State, t: nat)
    requires Inv(s) && t in s.locals && s.locals[t].Holds?
    ensures HolderReady(s.shared) && LocalOk(s.shared, s.locals[t])
    ensures s.locals[t].hold.StoreSignals? ==> Taken(s.shared.past.matched, s.shared.A()) == {}
  {
    Positive(s.locals, Holding, t);
    UnsignalledBound(s);
    if s.locals[t].hold.StoreSignals? { NoneTaken(s.shared.past, s.shared.ticket, s.shared.A()); }
  }

  lemma HoldKeeps(s: State, m: Move)
    requires Inv(s) && Timely(s, m) && m.tid in s.locals && s.locals[m.tid].Holds?
    ensures Inv(Step(s, m))
  {
    var l := s.locals[m.tid];
    HoldReady(s, m.tid);
    HoldCore(s.shared, l, m.call, m.flaky);
    HoldPast(s.shared, l, m.call, m.flaky);
    HoldMoves(s.shared, l, m.call, m.flaky);
    Assemble(s, Step(s, m), m.tid, Next(s.shared, l, m.call, m.flaky).1);
  }

  lemma StepKeeps(s: State, m: Move)
    requires Inv(s) && Timely(s, m)
    ensures Inv(Step(s, m))
  {
    if m.tid in s.locals {
      match s.locals[m.tid]
      case Idle => IdleKeeps(s, m);
      case Joins(_, _, _) => JoinKeeps(s, m);
      case Awaits(_, _, _, _) => AwaitKeeps(s, m);
      case Confirms(_) => ConfirmKeeps(s, m);
      case LoadReferences(_) => ReferencesKeeps(s, m);
      case Locks(_, _) => LockKeeps(s, m);
      case Holds(_, _, _) => HoldKeeps(s, m);
    }
  }
}
