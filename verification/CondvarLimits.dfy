/** Where the 32-bit signal words stop being enough: a waiter that is stopped between its load
    and its compare-exchange while 2^32 tickets go by takes a signal that belongs to a later group. */
module CondvarLimits {
  import opened Arithmetic
  import opened Condvar
  import opened CondvarSteps
  import opened CondvarRuns

  // ---------------------------------------------------------------- timely runs of three threads

  ghost predicate Arrives(moves: seq<Move>, s: State) {
    TimelyRun(Start({1, 2, 3}), moves) && Run(Start({1, 2, 3}), moves) == s
  }

  ghost predicate Reach(s: State) { exists moves :: Arrives(moves, s) }

  lemma OneMore(s: State, m: Move)
    requires Reach(s) && Timely(s, m)
    ensures Reach(Step(s, m))
  {
    var moves :| Arrives(moves, s);
    TimelyMore(Start({1, 2, 3}), moves, m);
    assert Arrives(moves + [m], Step(s, m));
  }

  lemma Goes(s: Shared, locals: map<nat, Local>, t: nat, l: Local, call: Call)
    requires Reach(State(s, locals[t := l])) && (l.Awaits? && l.await.Take? ==> s.past.counts.At(l.slot) < l.await.exact + WORD)
    ensures var (s', l') := Next(s, l, call, false); Reach(State(s', locals[t := l']))
  {
    OneMore(State(s, locals[t := l]), Move(t, call, false));
    var (s', l') := Next(s, l, call, false);
    assert locals[t := l][t := l'] == locals[t := l'];
  }

  lemma GoesTo(s: Shared, locals: map<nat, Local>, t: nat, l: Local, call: Call, s': Shared, l': Local)
    requires Reach(State(s, locals[t := l])) && !l.Awaits? && Next(s, l, call, false) == (s', l')
    ensures Reach(State(s', locals[t := l']))
  {
    Goes(s, locals, t, l, call);
  }

  // ---------------------------------------------------------------- one signal

  // Somebody waits, nobody holds the lock, and exactly one ticket is unsignalled.
  predicate OneWaits(s: Shared) {
    s.waiters > 0 && s.original.lock == Unlocked && s.sizes == Pair(0, 0) && s.ticket == s.start + s.original.size + 1
  }

  // Group one was used up: it is closed, its successor has one ticket, and that is signalled.
  function AfterSignal(s: Shared): Shared {
    var start := s.start + s.original.size;
    Shared(!s.slot, s.ticket, start, s.sizes, SizeWord(Unlocked, 1), s.waiters, s.signals.With(s.slot, (start + 1) % WORD),
           History(s.past.counts.With(s.slot, start + 1), s.past.bounds + [s.ticket], s.past.stamps + [s.ticket], s.past.matched, Steady))
  }

  // Group one closed and the groups exchanged, with the lock held.
  function AfterSwitch(s: Shared): Shared {
    var start := s.start + s.original.size;
    Shared(!s.slot, s.ticket, start, s.sizes.With(s.slot, 1), SizeWord(Locked, 1), s.waiters, s.signals.With(s.slot, start % WORD),
           History(s.past.counts.With(s.slot, start), s.past.bounds + [s.ticket], s.past.stamps, s.past.matched, Steady))
  }

  function Locked1(s: Shared): Shared { s.(original := s.original.(lock := Locked)) }

  lemma SignalLocks(s: Shared, locals: map<nat, Local>, t: nat)
    requires OneWaits(s) && Reach(State(s, locals[t := Idle]))
    ensures Reach(State(Locked1(s), locals[t := Holds(false, s.Delivered(), ReadSequence)]))
  {
    GoesTo(s, locals, t, Idle, Signal, s, LoadReferences(false));
    GoesTo(s, locals, t, LoadReferences(false), Signal, s, Locks(false, LockLoad));
    GoesTo(s, locals, t, Locks(false, LockLoad), Signal, s, Locks(false, LockFast(s.original)));
    GoesTo(s, locals, t, Locks(false, LockFast(s.original)), Signal, Locked1(s), Holds(false, s.Delivered(), ReadSequence));
  }

  lemma SomebodyWaits(s: Shared)
    requires OneWaits(s)
    ensures !NobodyWaits(Locked1(s), s.ticket)
  {
    ModWrapLeft(s.ticket, s.start + s.original.size);
  }

  lemma SignalLooks(s: Shared, locals: map<nat, Local>, t: nat, d: nat)
    requires OneWaits(s) && Reach(State(Locked1(s), locals[t := Holds(false, d, ReadSequence)]))
    ensures Reach(State(Locked1(s), locals[t := Holds(false, d, AddStart(s.ticket))]))
  {
    var s1 := Locked1(s);
    GoesTo(s1, locals, t, Holds(false, d, ReadSequence), Signal, s1, Holds(false, d, Decide(s.ticket)));
    GoesTo(s1, locals, t, Holds(false, d, Decide(s.ticket)), Signal, s1, Holds(false, d, Check(s.ticket)));
    SomebodyWaits(s);
    GoesTo(s1, locals, t, Holds(false, d, Check(s.ticket)), Signal, s1, Holds(false, d, AddStart(s.ticket)));
  }

  // Group one closed, and then the groups exchanged.
  function Closing(s: Shared): Shared { Locked1(s).(start := s.start + s.original.size, past := s.past.(stage := Closed)) }
  function Flipping(s: Shared): Shared {
    Closing(s).(slot := !s.slot, past := s.past.(bounds := s.past.bounds + [s.ticket], stage := Flipped))
  }
  function Storing(s: Shared): Shared {
    var start := s.start + s.original.size;
    Flipping(s).(signals := s.signals.With(s.slot, start % WORD),
      past := s.past.(bounds := s.past.bounds + [s.ticket], counts := s.past.counts.With(s.slot, start), stage := Stored))
  }

  lemma SignalCloses(s: Shared, locals: map<nat, Local>, t: nat, d: nat)
    requires OneWaits(s) && Reach(State(Locked1(s), locals[t := Holds(false, d, AddStart(s.ticket))]))
    ensures Reach(State(Storing(s), locals[t := Holds(false, d, SetLoad(s.ticket, 1))]))
  {
    var next := s.ticket;
    GoesTo(Locked1(s), locals, t, Holds(false, d, AddStart(next)), Signal, Closing(s), Holds(false, d, Flip(next)));
    GoesTo(Closing(s), locals, t, Holds(false, d, Flip(next)), Signal, Flipping(s), Holds(false, d, StoreSignals(next, next)));
    ModWrapLeft(next, s.start + s.original.size);
    GoesTo(Flipping(s), locals, t, Holds(false, d, StoreSignals(next, next)), Signal, Storing(s), Holds(false, d, SetLoad(next, 1)));
  }

  function SizedUp(s: Shared): Shared {
    s.(sizes := s.sizes.With(s.One(), 1), original := SizeWord(Locked, 1), past := s.past.(stage := Steady))
  }

  lemma SignalSizes(s: Shared, locals: map<nat, Local>, t: nat, d: nat, next: nat)
    requires s.original.lock == Locked && Reach(State(s, locals[t := Holds(false, d, SetLoad(next, 1))]))
    ensures Reach(State(s.(original := SizeWord(Locked, 1), past := s.past.(stage := Sized)), locals[t := Holds(false, d, AddSize(next, 1))]))
  {
    Goes(s, locals, t, Holds(false, d, SetLoad(next, 1)), Signal);
    if s.original.size != 1 {
      Goes(s, locals, t, Holds(false, d, SetCas(next, 1, s.original)), Signal);
    }
  }

  lemma SignalAdds(s: Shared, locals: map<nat, Local>, t: nat, d: nat, next: nat)
    requires s.sizes == Pair(0, 0)
    requires Reach(State(s.(original := SizeWord(Locked, 1), past := s.past.(stage := Sized)), locals[t := Holds(false, d, AddSize(next, 1))]))
    ensures Reach(State(SizedUp(s), locals[t := Holds(false, d, Deliver(next))]))
  {
    Goes(s.(original := SizeWord(Locked, 1), past := s.past.(stage := Sized)), locals, t, Holds(false, d, AddSize(next, 1)), Signal);
  }

  lemma SignalWords(s: Shared)
    requires OneWaits(s)
    ensures SizedUp(Storing(s)) == AfterSwitch(s)
    ensures Counted(AfterSwitch(s)).(original := SizeWord(Unlocked, 1)) == AfterSignal(s)
  {}

  function Counted(s: Shared): Shared {
    var count := s.past.counts.At(s.One()) + 1;
    s.(sizes := s.sizes.With(s.One(), 0), signals := s.signals.With(s.One(), count % WORD),
       past := s.past.(counts := s.past.counts.With(s.One(), count), stamps := s.past.stamps + [s.ticket]))
  }

  lemma GiveAndSettle(s: Shared)
    requires s.past.stage == Steady && s.signals.At(s.One()) == s.past.counts.At(s.One()) % WORD
    ensures Settle(Give(s, 1), 0) == Counted(s)
  {
    WrapUp(s.past.counts.At(s.One()), 1);
    assert seq(1, _ => s.ticket) == [s.ticket];
  }

  lemma SignalDelivers(s: Shared, locals: map<nat, Local>, t: nat, d: nat, next: nat)
    requires s.sizes.At(s.One()) == 1 && Reach(State(s, locals[t := Holds(false, d, Deliver(next))]))
    requires s.past.stage == Steady && s.signals.At(s.One()) == s.past.counts.At(s.One()) % WORD
    ensures Reach(State(Counted(s).(original := s.original.(lock := Unlocked)), locals[t := Idle]))
  {
    GiveAndSettle(s);
    SignalCounts(s, Give(s, 1), locals, t, d, next);
    Goes(Counted(s), locals, t, Holds(false, d, Release(next)), Signal);
  }

  lemma SignalCounts(s: Shared, given: Shared, locals: map<nat, Local>, t: nat, d: nat, next: nat)
    requires given == Give(s, 1) && s.sizes.At(s.One()) == 1
    requires Reach(State(s, locals[t := Holds(false, d, Deliver(next))]))
    ensures Reach(State(Settle(given, 0), locals[t := Holds(false, d, Release(next))]))
  {
    Goes(s, locals, t, Holds(false, d, Deliver(next)), Signal);
    assert given.sizes.At(given.One()) == 1;
    CountDown(1);
    Goes(given, locals, t, Holds(false, d, Count(next)), Signal);
  }

  lemma SignalGives(s: Shared, locals: map<nat, Local>, t: nat)
    requires OneWaits(s) && Reach(State(AfterSwitch(s), locals[t := Holds(false, s.Delivered(), Deliver(s.ticket))]))
    ensures Reach(State(AfterSignal(s), locals[t := Idle]))
  {
    SignalWords(s);
    SignalDelivers(AfterSwitch(s), locals, t, s.Delivered(), s.ticket);
  }

  lemma Signals(s: Shared, locals: map<nat, Local>, t: nat)
    requires OneWaits(s) && t in locals && locals[t] == Idle && Reach(State(s, locals))
    ensures Reach(State(AfterSignal(s), locals))
  {
    assert locals[t := Idle] == locals;
    SignalLocks(s, locals, t);
    SignalLooks(s, locals, t, s.Delivered());
    SignalCloses(s, locals, t, s.Delivered());
    SignalWords(s);
    SignalSizes(Storing(s), locals, t, s.Delivered(), s.ticket);
    SignalAdds(Storing(s), locals, t, s.Delivered(), s.ticket);
    SignalGives(s, locals, t);
  }

  // ---------------------------------------------------------------- one wait

  function AfterWait(s: Shared): Shared { s.(ticket := s.ticket + 1, waiters := s.waiters + 1) }

  function InLoop(s: Shared): Local { Awaits(s.ticket, s.slot, s.K() + 1, Load) }

  lemma Waits(s: Shared, locals: map<nat, Local>, t: nat)
    requires t in locals && locals[t] == Idle && Reach(State(s, locals))
    ensures Reach(State(AfterWait(s), locals[t := InLoop(s)]))
  {
    assert locals[t := Idle] == locals;
    Goes(s, locals, t, Idle, Wait);
    Goes(s.(ticket := s.ticket + 1), locals, t, Joins(s.ticket, s.slot, s.K() + 1), Wait);
  }

  // The word of the waiter's slot shows exactly one signal.
  predicate OneSignal(s: Shared, l: Local) {
    && l.Awaits? && l.await == Load && l.position == s.start && s.ticket == s.start + 1
    && s.past.counts.At(l.slot) == s.start + 1 && s.signals.At(l.slot) == (s.start + 1) % WORD
  }

  lemma Tests(s: Shared, locals: map<nat, Local>, t: nat, l: Local)
    requires OneSignal(s, l) && Reach(State(s, locals[t := l]))
    ensures Reach(State(s, locals[t := l.(await := Take((s.start + 1) % WORD, s.start + 1))]))
  {
    WrapExact(s.start + 1, s.start);
    Goes(s, locals, t, l, Wait);
    Goes(s, locals, t, l.(await := ReadStart((s.start + 1) % WORD, s.start + 1)), Wait);
  }

  function AfterTake(s: Shared, l: Local): Shared
    requires l.Awaits? && l.group < |s.past.bounds| && s.waiters > 0
  {
    var d := FirstFree(s.past.matched.Values, s.past.bounds[l.group]);
    s.(waiters := s.waiters - 1, signals := s.signals.With(l.slot, s.start % WORD),
       past := s.past.(counts := s.past.counts.With(l.slot, s.start), matched := s.past.matched[l.position := d]))
  }

  lemma Takes(s: Shared, locals: map<nat, Local>, t: nat, l: Local)
    requires OneSignal(s, l) && l.group < |s.past.bounds| && s.waiters > 0 && Reach(State(s, locals[t := l]))
    ensures Reach(State(AfterTake(s, l), locals[t := Idle]))
  {
    Tests(s, locals, t, l);
    WrapDown(s.start + 1);
    Goes(s, locals, t, l.(await := Take((s.start + 1) % WORD, s.start + 1)), Wait);
    Goes(TakeOne(s, l.slot, l.position, l.group), locals, t, Confirms(l.position), Wait);
  }

  // ---------------------------------------------------------------- the rounds

  // Thread 1 has seen the first group's word at 1 and has not run since; the others are outside.
  function Stalled(): Local { Awaits(0, false, 1, Take(1, 1)) }
  function Others(): map<nat, Local> { map[1 := Stalled(), 2 := Idle, 3 := Idle] }

  // After `m` rounds in which a waiter came, was signalled and left.
  predicate Calm(s: Shared, m: nat) {
    && s.ticket == m + 1 && s.start == m && s.sizes == Pair(0, 0) && s.original == SizeWord(Unlocked, 1) && s.waiters == 1
    && s.slot == SlotOf(m + 2) && |s.past.bounds| == m + 3 && s.past.bounds[m + 2] == m + 1 && s.Delivered() == m + 1
    && |s.past.matched| == m && (forall p :: p in s.past.matched ==> p <= m)
  }

  // A further waiter has come and has been signalled.
  function Renewed(s: Shared): Shared { AfterSignal(AfterWait(s)) }

  predicate Served(s: Shared, m: nat) {
    && s.ticket == m + 1 && s.start == m && s.sizes == Pair(0, 0) && s.original == SizeWord(Unlocked, 1) && s.waiters == 2
    && s.slot == SlotOf(m + 2) && |s.past.bounds| == m + 3 && s.past.bounds[m + 1] == m && s.past.bounds[m + 2] == m + 1
    && s.past.counts.At(!s.slot) == m + 1 && s.signals.At(!s.slot) == (m + 1) % WORD && s.Delivered() == m + 1
    && |s.past.matched| == m - 1 && (forall p :: p in s.past.matched ==> p < m)
  }

  function Waiter(m: nat): Local { Awaits(m, SlotOf(m + 1), m + 1, Load) }

  lemma RenewedServed(s: Shared, m: nat)
    requires Calm(s, m)
    ensures OneWaits(AfterWait(s)) && Served(Renewed(s), m + 1) && InLoop(s) == Waiter(m + 1)
  {}

  lemma RoundServes(s: Shared, m: nat)
    requires Calm(s, m) && Reach(State(s, Others()))
    ensures Served(Renewed(s), m + 1) && Reach(State(Renewed(s), Others()[2 := Waiter(m + 1)]))
  {
    RenewedServed(s, m);
    Waits(s, Others(), 2);
    Signals(AfterWait(s), Others()[2 := Waiter(m + 1)], 3);
  }

  lemma TakenCalm(s: Shared, m: nat)
    requires Served(s, m)
    ensures Calm(AfterTake(s, Waiter(m)), m)
  {
    var d := FirstFree(s.past.matched.Values, s.past.bounds[m + 1]);
    assert s.past.matched[m := d].Keys == s.past.matched.Keys + {m};
    assert |s.past.matched[m := d].Keys| == |s.past.matched.Keys| + 1;
  }

  lemma RoundEnds(s: Shared, m: nat)
    requires Served(s, m) && Reach(State(s, Others()[2 := Waiter(m)]))
    ensures Calm(AfterTake(s, Waiter(m)), m) && Reach(State(AfterTake(s, Waiter(m)), Others()))
  {
    TakenCalm(s, m);
    Takes(s, Others(), 2, Waiter(m));
    assert Others()[2 := Idle] == Others();
  }

  function Outside(): map<nat, Local> { map[1 := Idle, 2 := Idle, 3 := Idle] }

  // Thread 1 comes first and is signalled by thread 3.
  lemma FirstSignal()
    ensures Reach(State(Renewed(Fresh()), Outside()[1 := First()]))
  {
    assert Start({1, 2, 3}) == State(Fresh(), Outside());
    assert Arrives([], State(Fresh(), Outside()));
    Waits(Fresh(), Outside(), 1);
    Signals(AfterWait(Fresh()), Outside()[1 := First()], 3);
  }

  function First(): Local { Awaits(0, false, 1, Load) }

  lemma RenewedFresh()
    ensures Calm(Renewed(Fresh()), 0) && OneSignal(Renewed(Fresh()), First())
  {}

  // It sees its signal.
  lemma Sees(s: Shared)
    requires s.start == 0 && OneSignal(s, First()) && Reach(State(s, Outside()[1 := First()]))
    ensures Reach(State(s, Others()))
  {
    Tests(s, Outside(), 1, First());
    OneModWord();
    assert Outside()[1 := Stalled()] == Others();
  }

  lemma OneModWord()
    ensures (0 + 1) % WORD == 1
  {}

  lemma FirstRound() returns (s: Shared)
    ensures Calm(s, 0) && Reach(State(s, Others()))
  {
    RenewedFresh();
    FirstSignal();
    s := Renewed(Fresh());
    Sees(s);
  }

  lemma {:induction false} Rounds(m: nat) returns (s: Shared)
    ensures Calm(s, m) && Reach(State(s, Others()))
  {
    if m == 0 {
      s := FirstRound();
    } else {
      var before := Rounds(m - 1);
      RoundServes(before, m - 1);
      RoundEnds(Renewed(before), m);
      s := AfterTake(Renewed(before), Waiter(m));
    }
  }

  // A run of three threads in which every move is timely, up to the point where thread 1's pending
  // compare-exchange is not.
  lemma LateState() returns (moves: seq<Move>, s: Shared)
    ensures Arrives(moves, State(s, Others()[2 := Waiter(WORD)])) && Served(s, WORD)
  {
    var before := Rounds(WORD - 1);
    RoundServes(before, WORD - 1);
    s := Renewed(before);
    moves :| Arrives(moves, State(s, Others()[2 := Waiter(WORD)]));
  }

  // What the late compare-exchange does to the words.
  lemma LateTake(s: Shared)
    requires Served(s, WORD)
    ensures var (s', l') := Next(s, Stalled(), Wait, false);
            && l' == Confirms(0) && s'.signals.At(false) == 0 && s'.past.counts.At(false) == WORD
            && s'.start == s.start && s'.ticket == s.ticket && s'.sizes == s.sizes && s'.original == s.original
            && s'.past.bounds == s.past.bounds && s'.past.stamps == s.past.stamps
            && |s'.past.matched| <= |s.past.matched| + 1
  {
    assert WrapAdd(1, WORD - 1) == 0;
    var d := FirstFree(s.past.matched.Values, s.past.bounds[1]);
    assert s.past.matched[0 := d].Keys == s.past.matched.Keys + {0};
    assert |s.past.matched[0 := d].Keys| <= |s.past.matched.Keys| + 1;
  }

  // Thread 2's signal is gone, and no further one will come for it.
  predicate Robbed(s: Shared, w: Local)
    requires w.Awaits?
  {
    && !Entitled(s, w.position, w.slot, w.group) && !WrappedAbove(s.signals.At(w.slot), s.start)
    && s.Delivered() == s.ticket > |s.past.matched| && s.sizes == Pair(0, 0) && NobodyWaits(s, s.ticket)
  }

  lemma Robs(s: Shared)
    requires Served(s, WORD)
    ensures Entitled(s, WORD, false, WORD + 1)
    ensures var (s', l') := Next(s, Stalled(), Wait, false); l' == Confirms(0) && s'.start == WORD && Robbed(s', Waiter(WORD))
  {
    LateTake(s);
  }

  lemma LateStep(s: Shared)
    requires Served(s, WORD)
    ensures var late, m := State(s, map[1 := Stalled(), 2 := Waiter(WORD), 3 := Idle]), Move(1, Wait, false);
            && !Timely(late, m) && Step(late, m).locals == map[1 := Confirms(0), 2 := Waiter(WORD), 3 := Idle]
            && Robbed(Step(late, m).shared, Waiter(WORD)) && Step(late, m).shared.start == WORD
  {
    Robs(s);
  }

  lemma Steals(s: Shared)
    requires Served(s, WORD)
    ensures var late, m, w := State(s, Others()[2 := Waiter(WORD)]), Move(1, Wait, false), Waiter(WORD);
            && late.locals == map[1 := Stalled(), 2 := w, 3 := Idle] && !Timely(late, m)
            && Entitled(s, w.position, w.slot, w.group)
            && Step(late, m).locals == map[1 := Confirms(0), 2 := w, 3 := Idle]
            && Robbed(Step(late, m).shared, w) && Solo(Step(late, m), 2, 2) == Step(late, m)
  {
    assert Others()[2 := Waiter(WORD)] == map[1 := Stalled(), 2 := Waiter(WORD), 3 := Idle];
    Robs(s);
    LateStep(s);
    SoloFromLoad(Step(State(s, Others()[2 := Waiter(WORD)]), Move(1, Wait, false)), 2);
  }

  // The 32-bit words cannot do without the bound: three threads reach, by timely moves alone, a
  // state in which thread 2 waits in a group of one whose signal has been delivered and thread 1
  // is about to compare a word it loaded 2^32 signals ago. The words are equal, thread 1 takes
  // that signal, and thread 2 is stuck: it is back at the top of its loop every two steps, every
  // ticket drawn counts as signalled, and a further signal finds nobody to signal.
  lemma StalledWaiterSteals() returns (moves: seq<Move>)
    ensures var start := Start({1, 2, 3});
            var s, m := Run(start, moves), Move(1, Wait, false);
            var s', w := Step(s, m), Waiter(WORD);
            && TimelyRun(start, moves) && Inv(s) && !Timely(s, m)
            && s.locals == map[1 := Stalled(), 2 := w, 3 := Idle] && Entitled(s.shared, w.position, w.slot, w.group)
            && s'.locals == map[1 := Confirms(0), 2 := w, 3 := Idle] && Robbed(s'.shared, w) && Solo(s', 2, 2) == s'
  {
    var s;
    moves, s := LateState();
    Reached({1, 2, 3}, moves);
    Steals(s);
  }
}
