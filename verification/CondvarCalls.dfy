/** What a whole call on the condition variable achieves: a signal or broadcast that returns has
    served the waiters that were there when it was made, and a call that nobody disturbs returns. */
module CondvarCalls {
  import opened Arithmetic
  import opened Tally
  import opened Condvar
  import opened CondvarSteps
  import opened CondvarRuns
  import opened CondvarDeliveries

  // ---------------------------------------------------------------- skipping the lock

  // A signal or broadcast that returns without taking the signaler lock leaves nobody in the
  // waiting loop; one that finds a registered waiter goes for the lock.
  lemma SkipsOnlyNobody(threads: set<nat>, moves: seq<Move>, m: Move)
    requires |threads| < MAX_THREADS && TimelyRun(Start(threads), moves)
    requires m.tid in Run(Start(threads), moves).locals && Run(Start(threads), moves).locals[m.tid].LoadReferences?
    ensures var s := Run(Start(threads), moves);
            var l, l' := s.locals[m.tid], Step(s, m).locals[m.tid];
            && Step(s, m).shared == s.shared
            && (if s.shared.waiters == 0 then l' == Idle else l' == Locks(l.broadcast, LockLoad))
            && (l' == Idle ==> forall u :: u in s.locals ==> !s.locals[u].Awaits?)
  {
    var s := Run(Start(threads), moves);
    if s.shared.waiters == 0 {
      forall u | u in s.locals ensures !s.locals[u].Awaits? { SkipMeansNobody(threads, moves, u); }
    }
  }

  // ---------------------------------------------------------------- a call from start to return

  // A thread in the middle of a signal or broadcast made when the words were `s0`; `alone` if
  // nobody else has taken a step since.
  predicate Signalling(s0: Shared, b: bool, alone: bool, s: Shared, l: Local) {
    && s0.ticket <= s.ticket && s0.Delivered() <= s.Delivered() && (alone ==> s.ticket == s0.ticket)
    && match l
       case LoadReferences(b') => b' == b && (alone ==> s == s0)
       case Locks(b', _) => b' == b && (alone ==> s.Delivered() == s0.Delivered() && s.waiters == s0.waiters > 0)
       case Holds(b', before, hold) =>
         && b' == b && s0.Delivered() <= before && (!hold.ReadSequence? ==> s0.ticket <= hold.next)
         && (alone ==> before == s0.Delivered() && s.waiters == s0.waiters > 0 && (!hold.ReadSequence? ==> hold.next == s.ticket))
       case _ => false
  }

  lemma OwnSignalling(s0: Shared, b: bool, alone: bool, s: Shared, l: Local, call: Call, flaky: bool)
    requires Signalling(s0, b, alone, s, l)
    ensures var (s', l') := Next(s, l, call, flaky); l' == Idle || Signalling(s0, b, alone, s', l')
  {
    match l
    case LoadReferences(_) =>
    case Locks(_, _) => LockSignalling(s0, b, alone, s, l, call, flaky);
    case Holds(_, _, _) => HoldSignalling(s0, b, alone, s, l, call, flaky);
  }

  lemma LockSignalling(s0: Shared, b: bool, alone: bool, s: Shared, l: Local, call: Call, flaky: bool)
    requires Signalling(s0, b, alone, s, l) && l.Locks?
    ensures var (s', l') := Next(s, l, call, flaky); Signalling(s0, b, alone, s', l')
  {}

  lemma HoldSignalling(s0: Shared, b: bool, alone: bool, s: Shared, l: Local, call: Call, flaky: bool)
    requires Signalling(s0, b, alone, s, l) && l.Holds?
    ensures var (s', l') := Next(s, l, call, flaky); l' == Idle || Signalling(s0, b, alone, s', l')
  {}

  lemma OthersSignalling(s0: Shared, b: bool, s: Shared, l: Local, other: Local, call: Call, flaky: bool)
    requires Signalling(s0, b, false, s, l)
    ensures Signalling(s0, b, false, Next(s, other, call, flaky).0, l)
  {
    match other
    case Holds(_, _, _) =>
    case Awaits(_, _, _, _) =>
    case _ =>
  }

  // What a call made when the words were `s0` has achieved when it returns.
  ghost predicate Served(s0: Shared, b: bool, s: State) {
    if b then
      forall u :: u in s.locals && s.locals[u].Awaits? && s.locals[u].position < s0.ticket ==> MayLeave(s, u)
    else
      || (forall u :: u in s.locals ==> !s.locals[u].Awaits?)
      || s0.Delivered() >= s0.ticket || s.shared.Delivered() > s0.Delivered()
  }

  // The last step of the call: it found nobody registered, or it gives the signaler lock up.
  lemma ReturnServes(s: State, m: Move, s0: Shared, b: bool)
    requires Inv(s) && m.tid in s.locals && Signalling(s0, b, false, s.shared, s.locals[m.tid])
    requires Step(s, m).locals[m.tid] == Idle
    ensures Served(s0, b, Step(s, m))
  {
    LastOperation(s.shared, s.locals[m.tid], m.call, m.flaky);
    if s.locals[m.tid].LoadReferences? {
      SkipServes(s, m, s0, b);
    } else {
      ReleaseServes(s, m, s0, b);
    }
  }

  lemma LastOperation(s: Shared, l: Local, call: Call, flaky: bool)
    requires (l.LoadReferences? || l.Locks? || l.Holds?) && Next(s, l, call, flaky).1 == Idle
    ensures (l.LoadReferences? && s.waiters == 0) || (l.Holds? && l.hold.Release?)
  {
    match l
    case LoadReferences(_) =>
    case Locks(_, _) =>
    case Holds(_, _, hold) =>
  }

  lemma SkipServes(s: State, m: Move, s0: Shared, b: bool)
    requires Inv(s) && m.tid in s.locals && s.locals[m.tid].LoadReferences? && s.shared.waiters == 0
    ensures Served(s0, b, Step(s, m))
  {
    NobodyAwaits(s);
  }

  lemma NobodyAwaits(s: State)
    requires Inv(s) && s.shared.waiters == 0
    ensures forall u :: u in s.locals ==> !s.locals[u].Awaits?
  {
    ZeroMeansAllZero(s.locals, Referenced);
    forall u | u in s.locals ensures !s.locals[u].Awaits? { assert Referenced(s.locals[u]) == 0; }
  }

  lemma ReleaseServes(s: State, m: Move, s0: Shared, b: bool)
    requires Inv(s) && m.tid in s.locals && Signalling(s0, b, false, s.shared, s.locals[m.tid])
    requires s.locals[m.tid].Holds? && s.locals[m.tid].hold.Release?
    ensures Served(s0, b, Step(s, m))
  {
    var s' := Step(s, m);
    if b {
      forall u | u in s'.locals && s'.locals[u].Awaits? && s'.locals[u].position < s0.ticket ensures MayLeave(s', u) {
        BroadcastFrees(s, m.tid, u);
      }
    } else {
      assert LocalOk(s.shared, s.locals[m.tid]);
    }
  }

  // Thread `t` is inside a call in every state on the way.
  predicate Busies(s: State, moves: seq<Move>, t: nat) {
    forall i :: 0 <= i < |moves| ==> t in Run(s, moves[..i]).locals && Run(s, moves[..i]).locals[t] != Idle
  }

  lemma {:induction false} CallGoesOn(s: State, moves: seq<Move>, t: nat, s0: Shared, b: bool)
    requires Inv(s) && TimelyRun(s, moves) && t in s.locals && Signalling(s0, b, false, s.shared, s.locals[t])
    requires Busies(s, moves, t)
    ensures var s' := Run(s, moves);
            t in s'.locals && if s'.locals[t] == Idle then Served(s0, b, s') else Signalling(s0, b, false, s'.shared, s'.locals[t])
    decreases |moves|
  {
    if moves != [] {
      var front, m := moves[..|moves| - 1], moves[|moves| - 1];
      assert moves[..|front|] == front;
      FrontHolds(s, moves, t);
      CallGoesOn(s, front, t, s0, b);
      RunKeeps(s, front);
      StepGoesOn(Run(s, front), m, t, s0, b);
    }
  }

  lemma FrontHolds(s: State, moves: seq<Move>, t: nat)
    requires moves != [] && TimelyRun(s, moves) && Busies(s, moves, t)
    ensures TimelyRun(s, moves[..|moves| - 1]) && Busies(s, moves[..|moves| - 1], t)
  {
    var front := moves[..|moves| - 1];
    forall i | 0 <= i < |front| ensures front[..i] == moves[..i] && front[i] == moves[i] {}
  }

  lemma StepGoesOn(s: State, m: Move, t: nat, s0: Shared, b: bool)
    requires Inv(s) && t in s.locals && Signalling(s0, b, false, s.shared, s.locals[t])
    ensures var s' := Step(s, m);
            t in s'.locals && if s'.locals[t] == Idle then Served(s0, b, s') else Signalling(s0, b, false, s'.shared, s'.locals[t])
  {
    if m.tid == t {
      OwnSignalling(s0, b, false, s.shared, s.locals[t], m.call, m.flaky);
      if Step(s, m).locals[t] == Idle { ReturnServes(s, m, s0, b); }
    } else if m.tid in s.locals {
      OthersSignalling(s0, b, s.shared, s.locals[t], s.locals[m.tid], m.call, m.flaky);
    }
  }

  // Any signal or broadcast of any thread in any timely run: `made` starts it, `more` is what all
  // threads do until it returns. After a broadcast every thread in the waiting loop whose ticket was
  // drawn before the call may leave. After a signal there is one delivered signal more than when it
  // was made, unless every ticket had one already or nobody waits any more.
  lemma CallServes(threads: set<nat>, moves: seq<Move>, made: Move, more: seq<Move>)
    requires |threads| < MAX_THREADS && TimelyRun(Start(threads), moves) && made.call != Wait
    requires var s := Run(Start(threads), moves);
             && made.tid in s.locals && s.locals[made.tid] == Idle
             && TimelyRun(Step(s, made), more) && Busies(Step(s, made), more, made.tid)
             && made.tid in Run(Step(s, made), more).locals && Run(Step(s, made), more).locals[made.tid] == Idle
    ensures var s := Run(Start(threads), moves);
            Served(s.shared, made.call == Broadcast, Run(Step(s, made), more))
  {
    var s := Run(Start(threads), moves);
    Reached(threads, moves);
    StepKeeps(s, made);
    CallGoesOn(Step(s, made), more, made.tid, s.shared, made.call == Broadcast);
  }

  // ---------------------------------------------------------------- running alone

  // Nobody else is past the signaler lock.
  ghost predicate Alone(s: State, t: nat) {
    Inv(s) && t in s.locals && forall u :: u in s.locals && u != t ==> !s.locals[u].Holds?
  }

  lemma AloneLock(s: State, t: nat)
    requires Alone(s, t) && !s.locals[t].Holds?
    ensures s.shared.original.lock == Unlocked
  {
    forall u | u in s.locals ensures Holding(s.locals[u]) == 0 {}
    AllZero(s.locals, Holding);
  }

  function Rank(s: Shared, l: Local): nat {
    match l
    case LoadReferences(_) => 30
    case Locks(_, lock) =>
      (match lock
       case LockLoad => 27
       case LockPark => 27
       case LockFast(seen) => if seen == s.original then 25 else 26
       case LockSlow(seen) => if seen == s.original then 25 else 26)
    case Holds(_, _, hold) =>
      (match hold
       case ReadSequence => 24
       case Decide(_) => 23
       case Flush(_) => 22
       case Flushed(_) => 21
       case Check(_) => 20
       case AddStart(_) => 19
       case Flip(_) => 18
       case StoreSignals(_, _) => 17
       case SetLoad(_, _) => 16
       case SetCas(_, _, seen) => if seen == s.original then 13 else 14
       case AddSize(_, _) => 12
       case Deliver(_) => 11
       case DeliverAll(_) => 11
       case Count(_) => 10
       case Zero(_) => 10
       case Release(_) => 9)
    case _ => 0
  }

  lemma RankFalls(s: Shared, l: Local)
    requires l.LoadReferences? || l.Locks? || l.Holds?
    requires l.Locks? ==> s.original.lock == Unlocked
    ensures var (s', l') := Next(s, l, Wait, false); l' == Idle || Rank(s', l') < Rank(s, l) <= 30
    ensures Next(s, l, Wait, false).1 == Idle ==> l.LoadReferences? || (l.Holds? && l.hold.Release?)
  {
    if l.Holds? { HoldRankFalls(s, l); }
  }

  lemma HoldRankFalls(s: Shared, l: Local)
    requires l.Holds?
    ensures var (s', l') := Next(s, l, Wait, false); if l.hold.Release? then l' == Idle else l'.Holds? && Rank(s', l') < Rank(s, l) <= 30
  {}

  lemma AloneStep(s: State, t: nat)
    requires Alone(s, t) && (s.locals[t].LoadReferences? || s.locals[t].Locks? || s.locals[t].Holds?)
    ensures var s' := Step(s, Move(t, Wait, false));
            && Alone(s', t) && s'.locals == s.locals[t := Next(s.shared, s.locals[t], Wait, false).1]
            && (s'.locals[t] == Idle || Rank(s'.shared, s'.locals[t]) < Rank(s.shared, s.locals[t]) <= 30)
  {
    if !s.locals[t].Holds? { AloneLock(s, t); }
    RankFalls(s.shared, s.locals[t]);
    StepKeeps(s, Move(t, Wait, false));
  }

  // What an undisturbed call made when the words were `s0` has done when it returns: the words are
  // as before when nobody was registered; otherwise a broadcast has signalled every ticket and a
  // signal one more, if one was left.
  ghost predicate Did(s0: Shared, b: bool, s: State) {
    && s.shared.ticket == s0.ticket
    && (if s0.waiters == 0 then s.shared == s0
        else if b then s.shared.Delivered() >= s0.ticket
        else s.shared.Delivered() == s0.Delivered() + if s0.ticket > s0.Delivered() then 1 else 0)
    && (b ==> forall u :: u in s.locals && s.locals[u].Awaits? ==> MayLeave(s, u))
  }

  lemma ReturnDoes(s: State, t: nat, s0: Shared, b: bool)
    requires Inv(s) && t in s.locals && Signalling(s0, b, true, s.shared, s.locals[t])
    requires Step(s, Move(t, Wait, false)).locals[t] == Idle
    requires s.locals[t].LoadReferences? || (s.locals[t].Holds? && s.locals[t].hold.Release?)
    ensures Did(s0, b, Step(s, Move(t, Wait, false)))
  {
    var s' := Step(s, Move(t, Wait, false));
    assert LocalOk(s.shared, s.locals[t]);
    if s.locals[t].LoadReferences? {
      NobodyAwaits(s);
    } else if b {
      forall u | u in s'.locals && s'.locals[u].Awaits? ensures MayLeave(s', u) {
        assert LocalOk(s.shared, s.locals[u]);
        BroadcastFrees(s, t, u);
      }
    }
  }

  ghost predicate Ends(s: State, t: nat, n: nat, s0: Shared, b: bool, locals: map<nat, Local>) {
    var s' := Solo(s, t, n);
    t in s'.locals && s'.locals == locals[t := Idle] && Did(s0, b, s')
  }

  // One step on: the words behind it, and what is left to do.
  lemma StepOn(s: State, t: nat, s0: Shared, b: bool) returns (s': State)
    requires Alone(s, t) && Signalling(s0, b, true, s.shared, s.locals[t])
    ensures t in s'.locals && Alone(s', t) && s'.locals == s.locals[t := s'.locals[t]] && 0 < Rank(s.shared, s.locals[t]) <= 30
    ensures if s'.locals[t] == Idle then Did(s0, b, s')
            else Signalling(s0, b, true, s'.shared, s'.locals[t]) && Rank(s'.shared, s'.locals[t]) < Rank(s.shared, s.locals[t])
    ensures forall n: nat {:trigger Solo(s', t, n)} :: Solo(s, t, n + 1) == Solo(s', t, n)
  {
    s' := Step(s, Move(t, Wait, false));
    OwnSignalling(s0, b, true, s.shared, s.locals[t], Wait, false);
    AloneStep(s, t);
    RankBounds(s.shared, s.locals[t]);
    if Next(s.shared, s.locals[t], Wait, false).1 == Idle {
      LastOperation(s.shared, s.locals[t], Wait, false);
      ReturnDoes(s, t, s0, b);
    }
  }

  lemma RankBounds(s: Shared, l: Local)
    requires l.LoadReferences? || l.Locks? || l.Holds?
    ensures 0 < Rank(s, l) <= 30
  {}

  lemma {:induction false} Finishes(s: State, t: nat, s0: Shared, b: bool) returns (n: nat, f: State)
    requires Alone(s, t) && Signalling(s0, b, true, s.shared, s.locals[t])
    ensures n <= Rank(s.shared, s.locals[t]) <= 30 && Solo(s, t, n) == f
    ensures t in f.locals && f.locals == s.locals[t := Idle] && Did(s0, b, f)
    decreases Rank(s.shared, s.locals[t])
  {
    var s' := StepOn(s, t, s0, b);
    if s'.locals[t] == Idle {
      n, f := 0, s';
    } else {
      n, f := Finishes(s', t, s0, b);
      OverwriteTwice(s.locals, t, s'.locals[t], Idle);
    }
    assert Solo(s', t, n) == f;
    n := n + 1;
  }

  lemma OverwriteTwice(locals: map<nat, Local>, t: nat, a: Local, b: Local)
    ensures locals[t := a][t := b] == locals[t := b]
  {}

  ghost predicate EndsSoon(s: State, t: nat, s0: Shared, b: bool, locals: map<nat, Local>) {
    exists n: nat :: n <= 30 && Ends(s, t, n, s0, b, locals)
  }

  lemma AloneCall(s: State, t: nat, call: Call)
    requires Inv(s) && t in s.locals && s.locals[t] == Idle && call != Wait && forall u :: u in s.locals ==> !s.locals[u].Holds?
    ensures EndsSoon(Step(s, Move(t, call, false)), t, s.shared, call == Broadcast, s.locals)
  {
    var b := call == Broadcast;
    var s' := Step(s, Move(t, call, false));
    assert s' == State(s.shared, s.locals[t := LoadReferences(b)]);
    StepKeeps(s, Move(t, call, false));
    var n, f := Finishes(s', t, s.shared, b);
    OverwriteTwice(s.locals, t, LoadReferences(b), Idle);
    assert Ends(s', t, n, s.shared, b, s.locals);
  }

  // From every timely reached state in which nobody has the signaler lock: a signal or broadcast
  // that runs alone returns within thirty steps and leaves the other threads where they are. A
  // broadcast leaves every thread in the waiting loop free to go; a signal delivers exactly one
  // signal if a waiter is registered and a ticket is without one.
  lemma AloneReturns(threads: set<nat>, moves: seq<Move>, t: nat, call: Call)
    requires |threads| < MAX_THREADS && TimelyRun(Start(threads), moves) && call != Wait
    requires var s := Run(Start(threads), moves);
             t in s.locals && s.locals[t] == Idle && forall u :: u in s.locals ==> !s.locals[u].Holds?
    ensures var s := Run(Start(threads), moves);
            EndsSoon(Step(s, Move(t, call, false)), t, s.shared, call == Broadcast, s.locals)
  {
    Reached(threads, moves);
    AloneCall(Run(Start(threads), moves), t, call);
  }

  // ---------------------------------------------------------------- a waiter alone

  function WaitRank(s: Shared, l: Local): nat {
    match l
    case Joins(_, _, _) => 8
    case Awaits(_, slot, _, await) =>
      (match await
       case Load => 4
       case ReadStart(available, _) => if available == s.signals.At(slot) then 3 else 7
       case Take(available, _) => if available == s.signals.At(slot) then 2 else 5)
    case Confirms(_) => 1
    case _ => 0
  }

  predicate Waiting(l: Local) { l.Joins? || l.Awaits? || l.Confirms? }

  // One step of a waiter that may leave: closer to its return, and still free to go.
  lemma WaitStep(s: Shared, l: Local)
    requires Waiting(l) && (!l.Confirms? ==> Entitled(s, l.position, l.slot, l.group))
    requires l.Awaits? && l.await.ReadStart? && l.await.available == s.signals.At(l.slot) && s.start <= l.position ==>
               WrappedAbove(l.await.available, s.start)
    ensures var (s', l') := Next(s, l, Wait, false);
            && WaitRank(s', l') < WaitRank(s, l) <= 8 && (if l.Confirms? then l' == Idle else Waiting(l'))
            && (!l'.Idle? && !l'.Confirms? ==> Entitled(s', l'.position, l'.slot, l'.group))
  {}

  ghost predicate Leaving(s: State, t: nat) {
    && t in s.locals && Waiting(s.locals[t])
    && (!s.locals[t].Confirms? ==>
          && Entitled(s.shared, s.locals[t].position, s.locals[t].slot, s.locals[t].group)
          && (s.shared.start <= s.locals[t].position ==> WrappedAbove(s.shared.signals.At(s.locals[t].slot), s.shared.start)))
  }

  ghost predicate Gone(s: State, t: nat, n: nat) { t in Solo(s, t, n).locals && Solo(s, t, n).locals[t] == Idle }

  lemma {:induction false} LeavesFrom(s: State, t: nat) returns (n: nat)
    requires Leaving(s, t)
    ensures n <= 8 && n <= WaitRank(s.shared, s.locals[t]) && Gone(s, t, n)
    decreases WaitRank(s.shared, s.locals[t])
  {
    var s' := Step(s, Move(t, Wait, false));
    WaitStep(s.shared, s.locals[t]);
    if s'.locals[t] == Idle {
      n := 1;
      assert Solo(s, t, 1) == Solo(s', t, 0) == s';
    } else {
      n := LeavesFrom(s', t);
      n := n + 1;
      assert Solo(s, t, n) == Solo(s', t, n - 1);
    }
  }

  // In every timely reached state a waiter that may leave, wherever in the call it stands and
  // whatever it has loaded, is back from the call within eight steps of its own.
  lemma EntitledReturns(threads: set<nat>, moves: seq<Move>, t: nat)
    requires |threads| < MAX_THREADS && TimelyRun(Start(threads), moves)
    requires MayLeave(Run(Start(threads), moves), t)
    ensures exists n: nat :: n <= 8 && Gone(Run(Start(threads), moves), t, n)
  {
    Reached(threads, moves);
    var s := Run(Start(threads), moves);
    TestOfWords(s, t);
    var n := LeavesFrom(s, t);
  }

  // The words of a waiter that may leave pass its test.
  lemma TestOfWords(s: State, t: nat)
    requires Inv(s) && MayLeave(s, t)
    ensures Leaving(s, t)
  {
    var l := s.locals[t];
    assert LocalOk(s.shared, l);
    LoadRange(s.shared, l.position, l.slot, l.group);
    EntitledTest(s.shared, Awaits(l.position, l.slot, l.group, Load), s.shared.signals.At(l.slot), s.shared.past.counts.At(l.slot));
  }
}
