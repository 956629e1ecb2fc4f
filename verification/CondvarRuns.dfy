/** What holds in every state of every interleaving of waits, signals and broadcasts. */
module CondvarRuns {
  import opened Arithmetic
  import opened Tally
  import opened Condvar
  import opened CondvarSteps

  // A fresh condition variable.
  function Fresh(): Shared {
    Shared(false, 0, 0, Pair(0, 0), SizeWord(Unlocked, 0), 0, Pair(0, 0), History(Pair(0, 0), [0, 0], [], map[], Steady))
  }

  function Start(threads: set<nat>): State { State(Fresh(), map t | t in threads :: Idle) }

  function Run(s: State, moves: seq<Move>): State {
    if moves == [] then s else Step(Run(s, moves[..|moves| - 1]), moves[|moves| - 1])
  }

  // Every move of the run is timely when it is made.
  predicate TimelyRun(s: State, moves: seq<Move>) {
    forall i :: 0 <= i < |moves| ==> Timely(Run(s, moves[..i]), moves[i])
  }

  lemma StartOk(threads: set<nat>)
    requires |threads| < MAX_THREADS
    ensures Inv(Start(threads))
  {
    var s := Start(threads);
    assert s.locals.Keys == threads;
    AllZero(s.locals, Referenced);
    AllZero(s.locals, Active);
    AllZero(s.locals, Holding);
  }

  lemma {:induction false} RunKeeps(s: State, moves: seq<Move>)
    requires Inv(s) && TimelyRun(s, moves)
    ensures Inv(Run(s, moves))
  {
    if moves != [] {
      var front := moves[..|moves| - 1];
      forall i | 0 <= i < |front| ensures Timely(Run(s, front[..i]), front[i]) {
        assert front[..i] == moves[..i];
      }
      RunKeeps(s, front);
      StepKeeps(Run(s, front), moves[|moves| - 1]);
    }
  }

  lemma {:induction false} Reached(threads: set<nat>, moves: seq<Move>)
    requires |threads| < MAX_THREADS && TimelyRun(Start(threads), moves)
    ensures Inv(Run(Start(threads), moves))
  {
    StartOk(threads);
    RunKeeps(Start(threads), moves);
  }

  lemma TimelyMore(s: State, moves: seq<Move>, m: Move)
    requires TimelyRun(s, moves) && Timely(Run(s, moves), m)
    ensures TimelyRun(s, moves + [m]) && Run(s, moves + [m]) == Step(Run(s, moves), m)
  {
    var more := moves + [m];
    assert more[..|more| - 1] == moves;
    forall i | 0 <= i < |more| ensures Timely(Run(s, more[..i]), more[i]) {
      if i < |moves| { assert more[..i] == moves[..i]; } else { assert more[..i] == moves; }
    }
  }

  lemma TicketStep(s: State, m: Move)
    ensures Step(s, m).shared.ticket <= s.shared.ticket + 1
  {}

  lemma CountBelowTicket(s: State, m: Move)
    requires Inv(s) && s.shared.ticket < WORD
    ensures Timely(s, m)
  {
    assert s.shared.past.counts.At(false) <= s.shared.ticket && s.shared.past.counts.At(true) <= s.shared.ticket by {
      assert s.shared.One() || s.shared.Two();
    }
  }

  // The state is one the invariant allows, with at most `n` tickets drawn.
  ghost predicate Early(s: State, n: nat) { Inv(s) && s.shared.ticket <= n }

  lemma EarlyStep(s: State, m: Move, n: nat)
    requires Early(s, n) && n < WORD
    ensures Timely(s, m) && Early(Step(s, m), n + 1)
  {
    CountBelowTicket(s, m);
    TicketStep(s, m);
    StepKeeps(s, m);
  }

  lemma EarlyMore(s: State, moves: seq<Move>, m: Move)
    requires TimelyRun(s, moves) && Early(Run(s, moves), |moves|) && |moves| < WORD
    ensures TimelyRun(s, moves + [m]) && Early(Run(s, moves + [m]), |moves + [m]|)
  {
    EarlyStep(Run(s, moves), m, |moves|);
    TimelyMore(s, moves, m);
  }

  lemma {:induction false} FewTicketsTimely(s: State, moves: seq<Move>)
    requires Early(s, 0) && |moves| <= WORD
    ensures TimelyRun(s, moves) && Early(Run(s, moves), |moves|)
  {
    if moves != [] {
      var front, m := moves[..|moves| - 1], moves[|moves| - 1];
      assert moves == front + [m];
      FewTicketsTimely(s, front);
      EarlyMore(s, front, m);
    }
  }

  // Every run of at most 2^32 operations is timely.
  lemma ShortRunsTimely(threads: set<nat>, moves: seq<Move>)
    requires |threads| < MAX_THREADS && |moves| <= WORD
    ensures TimelyRun(Start(threads), moves)
  {
    StartOk(threads);
    FewTicketsTimely(Start(threads), moves);
  }

  // Every waiter that has left the waiting loop is accounted to a delivered signal. The signal
  // belongs to the waiter's own group, was delivered after the waiter drew its ticket, and is
  // nobody else's: no wake-up is invented, none is stolen across groups.
  lemma DeparturesMatched(threads: set<nat>, moves: seq<Move>, p: nat, q: nat, j: nat)
    requires |threads| < MAX_THREADS && TimelyRun(Start(threads), moves)
    requires var h := Run(Start(threads), moves).shared.past;
             p in h.matched && q in h.matched && j < |h.bounds|
    ensures var h := Run(Start(threads), moves).shared.past;
            && h.matched[p] < |h.stamps|
            && p < h.stamps[h.matched[p]]
            && (p != q ==> h.matched[p] != h.matched[q])
            && (p < h.bounds[j] <==> h.matched[p] < h.bounds[j])
            && |h.matched| <= |h.stamps|
  {
    Reached(threads, moves);
    var h := Run(Start(threads), moves).shared.past;
    MatchedSize(h.matched, |h.stamps|);
  }

  // A thread on its way out of `pthread_cond_wait` is one of the accounted departures, a thread
  // still inside is not, and together they are all the tickets ever drawn.
  lemma WhoHasLeft(threads: set<nat>, moves: seq<Move>, t: nat)
    requires |threads| < MAX_THREADS && TimelyRun(Start(threads), moves)
    requires t in Run(Start(threads), moves).locals
    ensures var s := Run(Start(threads), moves);
            var l := s.locals[t];
            && (l.Confirms? ==> l.position in s.shared.past.matched)
            && (l.Joins? || l.Awaits? ==> l.position !in s.shared.past.matched && l.position < s.shared.ticket)
            && s.shared.ticket == |s.shared.past.matched| + Sum(s.locals, Active)
  {
    Reached(threads, moves);
    assert LocalOk(Run(Start(threads), moves).shared, Run(Start(threads), moves).locals[t]);
  }

  // A waiter may leave: its group was closed, or its open group's word shows a signal.
  predicate Entitled(s: Shared, p: nat, slot: bool, group: nat) {
    p < s.start || (group == s.K() && s.past.counts.At(slot) > s.start)
  }

  // After a broadcast every waiter whose ticket is below the count the broadcast observed may leave.
  lemma BroadcastFreesAll(threads: set<nat>, moves: seq<Move>, t: nat, before: nat, next: nat, u: nat)
    requires |threads| < MAX_THREADS && TimelyRun(Start(threads), moves)
    requires var s := Run(Start(threads), moves);
             t in s.locals && s.locals[t] == Holds(true, before, Release(next))
             && u in s.locals && (s.locals[u].Joins? || s.locals[u].Awaits?) && s.locals[u].position < next
    ensures var s := Run(Start(threads), moves);
            Entitled(s.shared, s.locals[u].position, s.locals[u].slot, s.locals[u].group)
  {
    Reached(threads, moves);
    BroadcastFrees(Run(Start(threads), moves), t, u);
  }

  lemma BroadcastDone(s: State, t: nat)
    requires Inv(s) && t in s.locals && s.locals[t].Holds? && s.locals[t].broadcast && s.locals[t].hold.Release?
    ensures s.shared.past.stage == Steady && s.locals[t].hold.next <= s.shared.Delivered() == s.shared.B()
  {
    assert LocalOk(s.shared, s.locals[t]);
  }

  lemma WaiterInGroup(s: State, u: nat)
    requires Inv(s) && u in s.locals && (s.locals[u].Joins? || s.locals[u].Awaits?)
    ensures InGroup(s.shared, s.locals[u].position, s.locals[u].slot, s.locals[u].group)
  {
    assert LocalOk(s.shared, s.locals[u]);
  }

  lemma BroadcastFrees(s: State, t: nat, u: nat)
    requires Inv(s) && t in s.locals && s.locals[t].Holds? && s.locals[t].broadcast && s.locals[t].hold.Release?
    requires u in s.locals && (s.locals[u].Joins? || s.locals[u].Awaits?)
    requires s.locals[u].position < s.locals[t].hold.next
    ensures Entitled(s.shared, s.locals[u].position, s.locals[u].slot, s.locals[u].group)
  {
    BroadcastDone(s, t);
    WaiterInGroup(s, u);
    SignalledMayLeave(s.shared, s.locals[u].position, s.locals[u].slot, s.locals[u].group);
  }

  // When group one has all its signals, each of its members that is still inside finds one.
  lemma SignalledMayLeave(s: Shared, p: nat, slot: bool, group: nat)
    requires SharedOk(s) && s.past.stage == Steady && s.Delivered() == s.B() && InGroup(s, p, slot, group) && p < s.B()
    ensures Entitled(s, p, slot, group)
  {
    if p >= s.start {
      if group < s.K() { BeforeGroupOne(s, p, slot, group); }
      TakenLess(s.past.matched, s.past.bounds, s.past.stamps, s.K(), p);
    }
  }

  // A member of the last closed group that has not left leaves one of its signals untaken.
  lemma TakenLess(matched: map<nat, nat>, bounds: seq<nat>, stamps: seq<nat>, k: nat, p: nat)
    requires MatchedOk(bounds, matched, stamps) && k + 1 < |bounds| && |stamps| == bounds[k + 1]
    requires bounds[k] <= p < bounds[k + 1] && p !in matched
    ensures |Taken(matched, bounds[k])| < bounds[k + 1] - bounds[k]
  {
    var taken := Taken(matched, bounds[k]);
    var others := Range(bounds[k], bounds[k + 1]) - {p};
    forall q | q in taken ensures q in others {
      assert matched[q] < bounds[k + 1];
    }
    SubsetSize(taken, others);
  }

  function Solo(s: State, t: nat, n: nat): State
    decreases n
  {
    if n == 0 then s else Solo(Step(s, Move(t, Wait, false)), t, n - 1)
  }

  // Entitlement is exact: an entitled waiter that runs alone from the top of its loop leaves
  // within three steps, and one that is not entitled is back at the top after two.
  lemma EntitledLeaves(s: State, t: nat)
    requires Inv(s) && t in s.locals && s.locals[t].Awaits? && s.locals[t].await.Load?
    ensures var l := s.locals[t];
            if Entitled(s.shared, l.position, l.slot, l.group) then Leaves(s, t, 2) || Leaves(s, t, 3)
            else Solo(s, t, 2) == s
  {
    TestOfLoad(s.shared, s.locals[t]);
    SoloFromLoad(s, t);
  }

  // The test a waiter makes on the words as they are passes exactly when it is entitled.
  lemma TestOfLoad(s: Shared, l: Local)
    requires SharedOk(s) && LocalOk(s, l) && l.Awaits?
    ensures s.start <= l.position ==>
            (WrappedAbove(s.signals.At(l.slot), s.start) <==> Entitled(s, l.position, l.slot, l.group))
  {
    LoadRange(s, l.position, l.slot, l.group);
    EntitledTest(s, l, s.signals.At(l.slot), s.past.counts.At(l.slot));
  }

  lemma SoloFromLoad(s: State, t: nat)
    requires t in s.locals && s.locals[t].Awaits? && s.locals[t].await.Load?
    ensures var l := s.locals[t];
            if l.position < s.shared.start then Leaves(s, t, 2)
            else if WrappedAbove(s.shared.signals.At(l.slot), s.shared.start) then Leaves(s, t, 3)
            else Solo(s, t, 2) == s
  {
    var l := s.locals[t];
    var loaded := l.(await := ReadStart(s.shared.signals.At(l.slot), s.shared.past.counts.At(l.slot)));
    var s1 := s.Become(t, loaded);
    assert Step(s, Move(t, Wait, false)) == s1;
    assert Solo(s, t, 2) == Solo(s1, t, 1) && Solo(s, t, 3) == Solo(s1, t, 2);
    assert s.Become(t, l) == s;
    SoloTest(s1, t, s);
  }

  predicate Leaves(s: State, t: nat, n: nat) {
    t in Solo(s, t, n).locals && Solo(s, t, n).locals[t].Confirms?
  }

  // The second and third step of a waiter that runs alone.
  lemma SoloTest(s: State, t: nat, before: State)
    requires t in s.locals && s.locals[t].Awaits? && s.locals[t].await.ReadStart?
    requires s.shared.signals.At(s.locals[t].slot) == s.locals[t].await.available
    requires before == s.Become(t, s.locals[t].(await := Load))
    ensures var l := s.locals[t];
            if l.position < s.shared.start then Leaves(s, t, 1)
            else if WrappedAbove(l.await.available, s.shared.start) then Leaves(s, t, 2)
            else Solo(s, t, 1) == before
  {
    var s2 := Step(s, Move(t, Wait, false));
    assert Solo(s, t, 1) == Solo(s2, t, 0) == s2 && Solo(s, t, 2) == Solo(s2, t, 1);
    var s3 := Step(s2, Move(t, Wait, false));
    assert Solo(s2, t, 1) == Solo(s3, t, 0) == s3;
  }

  lemma EntitledTest(s: Shared, l: Local, available: nat, exact: nat)
    requires SharedOk(s) && l.Awaits? && InGroup(s, l.position, l.slot, l.group)
    requires exact == s.past.counts.At(l.slot) && available == s.signals.At(l.slot)
    requires AwaitOk(s, l.position, l.group, ReadStart(available, exact))
    ensures s.start <= l.position ==>
            (WrappedAbove(available, s.start) <==> Entitled(s, l.position, l.slot, l.group))
  {
    if s.start <= l.position {
      WrappedTestExact(s, l.position, l.slot, l.group, available, exact);
      if exact > s.start { TestPassed(s, l.position, l.slot, l.group, available, exact); }
      assert l.group == s.K() + 1 ==> l.slot == s.Two();
    }
  }

  // `pthread_cond_signal` and `_broadcast` skip the lock only when no registered waiter is inside.
  lemma SkipMeansNobody(threads: set<nat>, moves: seq<Move>, u: nat)
    requires |threads| < MAX_THREADS && TimelyRun(Start(threads), moves)
    requires Run(Start(threads), moves).shared.waiters == 0 && u in Run(Start(threads), moves).locals
    ensures !Run(Start(threads), moves).locals[u].Awaits?
  {
    Reached(threads, moves);
    ZeroMeansAllZero(Run(Start(threads), moves).locals, Referenced);
    assert Referenced(Run(Start(threads), moves).locals[u]) == 0;
  }

  // While nobody holds the signaler lock the tickets split into closed ones below the start, group
  // one of the original size, and group two; group one's size is what is not delivered yet, and
  // its word counts the delivered signals nobody took, modulo 2^32.
  lemma TicketSplit(threads: set<nat>, moves: seq<Move>)
    requires |threads| < MAX_THREADS && TimelyRun(Start(threads), moves)
    requires Run(Start(threads), moves).shared.original.lock == Unlocked
    ensures SplitUp(Run(Start(threads), moves).shared)
  {
    Reached(threads, moves);
    UnsignalledBound(Run(Start(threads), moves));
    SplitHolds(Run(Start(threads), moves).shared);
  }

  predicate SplitUp(s: Shared) {
    && s.start <= s.Delivered() <= s.start + s.original.size <= s.ticket
    && s.sizes.At(s.One()) == s.original.size - (s.Delivered() - s.start) && s.sizes.At(s.Two()) == 0
    && s.Delivered() - s.start >= |Taken(s.past.matched, s.start)|
    && s.signals.At(s.One()) == (s.Delivered() - |Taken(s.past.matched, s.start)|) % WORD
    && s.ticket - s.Delivered() < MAX_THREADS
  }

  lemma SplitHolds(s: Shared)
    requires CoreOk(s) && s.original.lock == Unlocked && s.ticket - s.Delivered() < MAX_THREADS
    ensures SplitUp(s)
  {
    assert s.start == s.A();
  }

  // At most one thread is past the signaler lock.
  lemma OneSignaler(threads: set<nat>, moves: seq<Move>, t: nat, u: nat)
    requires |threads| < MAX_THREADS && TimelyRun(Start(threads), moves)
    requires t in Run(Start(threads), moves).locals && u in Run(Start(threads), moves).locals
    ensures var s := Run(Start(threads), moves); s.locals[t].Holds? && s.locals[u].Holds? ==> t == u
  {
    Reached(threads, moves);
    var s := Run(Start(threads), moves);
    if t != u && s.locals[t].Holds? { NoOtherHolder(s.locals, t, u); }
  }

  // In every state the wrapped 32-bit tests answer as they would with unbounded counters: the
  // waiter's test, even between the two loads around a group switch, and the signaler's
  // emptiness test.
  lemma WrappedTestsExact(threads: set<nat>, moves: seq<Move>, t: nat)
    requires |threads| < MAX_THREADS && TimelyRun(Start(threads), moves)
    requires t in Run(Start(threads), moves).locals
    ensures var s := Run(Start(threads), moves).shared;
            var l := Run(Start(threads), moves).locals[t];
            && (l.Awaits? && l.await.ReadStart? && s.start <= l.position ==>
                (WrappedAbove(l.await.available, s.start) <==> l.await.exact > s.start))
            && (l.Holds? && l.hold.Check? ==> (NobodyWaits(s, l.hold.next) <==> l.hold.next == s.Delivered()))
  {
    Reached(threads, moves);
    TestsExact(Run(Start(threads), moves), t);
  }

  lemma TestsExact(s: State, t: nat)
    requires Inv(s) && t in s.locals
    ensures var l := s.locals[t];
            && (l.Awaits? && l.await.ReadStart? && s.shared.start <= l.position ==>
                (WrappedAbove(l.await.available, s.shared.start) <==> l.await.exact > s.shared.start))
            && (l.Holds? && l.hold.Check? ==> (NobodyWaits(s.shared, l.hold.next) <==> l.hold.next == s.shared.Delivered()))
  {
    var l := s.locals[t];
    assert LocalOk(s.shared, l);
    UnsignalledBound(s);
    if l.Awaits? && l.await.ReadStart? && s.shared.start <= l.position {
      WrappedTestExact(s.shared, l.position, l.slot, l.group, l.await.available, l.await.exact);
    }
    if l.Holds? && l.hold.Check? { EmptinessExact(s.shared, l.hold.next); }
  }
}
