/** What each call on the mutex returns and does to its caller, in any interleaving, and when a
    call that nobody disturbs comes back. */
module MutexCalls {
  import opened Arithmetic
  import opened Mutex

  // ---------------------------------------------------------------- one call from start to return

  // A call the program may make: only the holder waits, or unlocks a mutex that checks nothing.
  predicate Proper(kind: Kind, l: Local, call: Call) {
    call.CondWait? || (call.Unlock? && kind == Normal) ==> l.held
  }

  predicate Same(before: Local, after: Local) { after.held == before.held && after.level == before.level }

  // What a finished call did: `before` is the caller when it made the call, `after` on return.
  predicate Answered(kind: Kind, before: Local, call: Call, after: Local) {
    match call
    case Lock =>
      if before.held then
        if kind == Recursive then after.result == Zero && after.held && after.level == before.level + 1
        else kind == ErrorCheck && after.result == Deadlock && Same(before, after)
      else after.result == Zero && after.held && after.level == 1
    case TryLock =>
      if before.held then
        if kind == Recursive then after.result == Zero && after.held && after.level == before.level + 1
        else after.result == Busy && Same(before, after)
      else if after.result == Zero then after.held && after.level == 1
      else after.result == Busy && Same(before, after)
    case Unlock =>
      if kind != Normal && !before.recorded then after.result == NotOwner && Same(before, after)
      else
        && after.result == Zero
        && if Counted(kind) && before.level % WORD > 1 then after.held && after.level == before.level - 1
           else !after.held && after.level == 0
    case CondWait => after.result == Zero && after.held && after.level == before.level
  }

  // The program points of each call.
  predicate At(call: Call, pc: Pc) {
    match pc
    case Idle => false
    case Suspended(_) => call == CondWait
    case TestOwner(asked) => call == asked && call != CondWait
    case Spin(_) => call == Lock
    case Try => call == TryLock
    case Fast(goal) => Seeks(call, goal)
    case Swap(goal) => Seeks(call, goal)
    case Sleep(goal) => Seeks(call, goal)
    case Parked(goal) => Seeks(call, goal)
    case Record(goal) => if goal.ByTry? then call == TryLock else Seeks(call, goal)
    case Clear(toWait) => call == if toWait then CondWait else Unlock
    case Drop(leave) => call == if leave.Suspending? then CondWait else Unlock
    case Wake(leave) => call == if leave.Suspending? then CondWait else Unlock
  }

  predicate Seeks(call: Call, goal: Goal) {
    match goal
    case ByLock => call == Lock
    case ByTry => false
    case AfterWait(_) => call == CondWait
  }

  // The caller in the middle of a call.
  predicate During(kind: Kind, before: Local, call: Call, l: Local) {
    && l.call == call && At(call, l.pc)
    && match call
       case Lock =>
         if l.pc.Record? then !before.held && l.held && l.level == 1
         else Same(before, l) && (Counted(kind) && !l.pc.TestOwner? ==> !before.held)
       case TryLock =>
         if l.pc.Record? then !before.held && l.held && l.level == 1
         else Same(before, l) && if l.pc.TestOwner? then kind == Recursive else kind == Recursive ==> !before.held
       case Unlock =>
         if l.pc.TestOwner? then Same(before, l) && l.recorded == before.recorded
         else
           && (kind == Normal || before.recorded) && (Counted(kind) ==> before.level % WORD <= 1)
           && (!l.pc.Wake? ==> l.level == before.level && l.held)
       case CondWait => l.level == before.level
  }

  predicate Continues(kind: Kind, before: Local, call: Call, l: Local) {
    if l.pc.Idle? then l.call == call && Answered(kind, before, call, l) else During(kind, before, call, l)
  }

  predicate Fits(s: Shared, t: nat, l: Local) { SharedOk(s) && t != 0 && LocalOk(s, t, l) }

  lemma BeginContinues(s: Shared, t: nat, l: Local, call: Call)
    requires Fits(s, t, l) && l.pc.Idle? && Proper(s.kind, l, call) && (s.unsupported ==> call == CondWait)
    ensures During(s.kind, l, call, Next(s, t, l, call).1)
  {}

  lemma TestContinues(s: Shared, t: nat, before: Local, call: Call, l: Local, any: Call)
    requires Fits(s, t, l) && During(s.kind, before, call, l) && l.pc.TestOwner?
    ensures Continues(s.kind, before, call, Next(s, t, l, any).1)
  {}

  lemma SeekContinues(s: Shared, t: nat, before: Local, call: Call, l: Local, any: Call)
    requires Fits(s, t, l) && During(s.kind, before, call, l)
    requires l.pc.Spin? || l.pc.Try? || l.pc.Fast? || l.pc.Swap? || l.pc.Sleep? || l.pc.Parked?
    ensures Continues(s.kind, before, call, Next(s, t, l, any).1)
  {}

  lemma HandContinues(s: Shared, t: nat, before: Local, call: Call, l: Local, any: Call)
    requires Fits(s, t, l) && During(s.kind, before, call, l)
    requires l.pc.Record? || l.pc.Clear? || l.pc.Drop? || l.pc.Wake? || l.pc.Suspended?
    ensures Continues(s.kind, before, call, Next(s, t, l, any).1)
  {}

  lemma NextContinues(s: Shared, t: nat, before: Local, call: Call, l: Local, any: Call)
    requires Fits(s, t, l) && During(s.kind, before, call, l)
    ensures Continues(s.kind, before, call, Next(s, t, l, any).1)
  {
    match l.pc
    case Idle =>
    case TestOwner(_) => TestContinues(s, t, before, call, l, any);
    case Spin(_) | Try | Fast(_) | Swap(_) | Sleep(_) | Parked(_) => SeekContinues(s, t, before, call, l, any);
    case _ => HandContinues(s, t, before, call, l, any);
  }

  // A step of any thread: this one's own, or one that may wake it.
  lemma StepContinues(s: State, m: Move, t: nat, before: Local, call: Call)
    requires Inv(s) && t in s.locals && During(s.shared.kind, before, call, s.locals[t])
    ensures t in Step(s, m).locals && Continues(s.shared.kind, before, call, Step(s, m).locals[t])
  {
    if m.tid == t {
      assert Fits(s.shared, t, s.locals[t]);
      NextContinues(s.shared, t, before, call, s.locals[t], m.call);
      WokenGoesOn(s.locals[t := Next(s.shared, t, s.locals[t], m.call).1], m.wake, t, s.shared.kind, before, call);
    } else if m.tid in s.locals {
      WokenGoesOn(s.locals[m.tid := Next(s.shared, m.tid, s.locals[m.tid], m.call).1], m.wake, t, s.shared.kind, before, call);
    }
  }

  lemma WokenGoesOn(locals: map<nat, Local>, wake: nat, t: nat, kind: Kind, before: Local, call: Call)
    requires t in locals && Continues(kind, before, call, locals[t])
    ensures t in Rouse(locals, wake) && Continues(kind, before, call, Rouse(locals, wake)[t])
  {}

  // Thread `t` is inside a call in every state on the way.
  predicate Busies(s: State, moves: seq<Move>, t: nat) {
    forall i :: 0 <= i < |moves| ==> t in Run(s, moves[..i]).locals && !Run(s, moves[..i]).locals[t].pc.Idle?
  }

  lemma {:induction false} CallContinues(s: State, moves: seq<Move>, t: nat, before: Local, call: Call)
    requires Inv(s) && t in s.locals && During(s.shared.kind, before, call, s.locals[t]) && Busies(s, moves, t)
    ensures t in Run(s, moves).locals && Continues(s.shared.kind, before, call, Run(s, moves).locals[t])
    decreases |moves|
  {
    if moves != [] {
      var front, m := moves[..|moves| - 1], moves[|moves| - 1];
      forall i | 0 <= i < |front| ensures t in Run(s, front[..i]).locals && !Run(s, front[..i]).locals[t].pc.Idle? {
        assert front[..i] == moves[..i];
      }
      CallContinues(s, front, t, before, call);
      RunKeeps(s, front);
      assert moves[..|front|] == front;
      StepContinues(Run(s, front), m, t, before, call);
    }
  }

  // Any call of any thread on a mutex of any kind: `made` starts it in a reached state, `more` is
  // what all threads do until it returns. A lock or try-lock returns zero exactly when the caller
  // holds the mutex because of it: once more for the recursive kind, newly otherwise. A holder's
  // lock of the error-checking kind is refused as a deadlock, and of the other two never returns.
  lemma CallAnswered(kind: Kind, spins: nat, threads: set<nat>, moves: seq<Move>, s: State, made: Move, more: seq<Move>)
    requires Reached(kind, false, spins, threads, moves, s) && made.tid in s.locals && !s.shared.unsupported
    requires s.locals[made.tid].pc.Idle? && Proper(kind, s.locals[made.tid], made.call)
    requires Busies(Step(s, made), more, made.tid)
    requires made.tid in Run(Step(s, made), more).locals && Run(Step(s, made), more).locals[made.tid].pc.Idle?
    ensures Answered(kind, s.locals[made.tid], made.call, Run(Step(s, made), more).locals[made.tid])
  {
    ReachedOk(kind, false, spins, threads, moves, s);
    StepKeeps(s, made);
    BeginContinues(s.shared, made.tid, s.locals[made.tid], made.call);
    CallContinues(Step(s, made), more, made.tid, s.locals[made.tid], made.call);
  }

  // With an unsupported protocol every call is refused at once and changes nothing.
  lemma UnsupportedRefused(kind: Kind, spins: nat, threads: set<nat>, moves: seq<Move>, s: State, made: Move)
    requires Reached(kind, true, spins, threads, moves, s) && made.tid in s.locals && s.shared.unsupported
    requires s.locals[made.tid].pc.Idle? && made.call != CondWait
    ensures Step(s, made) == State(s.shared, s.locals[made.tid := Done(s.locals[made.tid].(call := made.call), NotSupported)])
  {}

  // ---------------------------------------------------------------- locking a held mutex again

  // Two steps of the holder of a recursive mutex lock it once more, by lock or by try-lock.
  lemma RecursiveNests(spins: nat, threads: set<nat>, moves: seq<Move>, s: State, t: nat, call: Call)
    requires Reached(Recursive, false, spins, threads, moves, s) && t in s.locals && !s.shared.unsupported
    requires s.locals[t].pc.Idle? && s.locals[t].held && (call == Lock || call == TryLock)
    ensures var s' := Step(Step(s, Move(t, call, 0)), Move(t, call, 0));
            && s'.shared == s.shared.(recursion := (s.shared.recursion + 1) % WORD)
            && s'.locals == s.locals[t := Done(s.locals[t].(call := call, level := s.locals[t].level + 1), Zero)]
  {
    ReachedOk(Recursive, false, spins, threads, moves, s);
    var asked := Step(s, Move(t, call, 0));
    assert asked == State(s.shared, s.locals[t := s.locals[t].(call := call, pc := TestOwner(call))]);
    var l := Done(s.locals[t].(call := call, level := s.locals[t].level + 1), Zero);
    assert asked.locals[t := l] == s.locals[t := l];
  }

  // Two steps of the holder of an error-checking mutex tell it of the deadlock and change nothing.
  lemma ErrorCheckRefuses(spins: nat, threads: set<nat>, moves: seq<Move>, s: State, t: nat)
    requires Reached(ErrorCheck, false, spins, threads, moves, s) && t in s.locals && !s.shared.unsupported
    requires s.locals[t].pc.Idle? && s.locals[t].held
    ensures var s' := Step(Step(s, Move(t, Lock, 0)), Move(t, Lock, 0));
            s' == State(s.shared, s.locals[t := Done(s.locals[t].(call := Lock), Deadlock)])
  {
    ReachedOk(ErrorCheck, false, spins, threads, moves, s);
    var asked := Step(s, Move(t, Lock, 0));
    assert asked == State(s.shared, s.locals[t := s.locals[t].(call := Lock, pc := TestOwner(Lock))]);
    var l := Done(s.locals[t].(call := Lock), Deadlock);
    assert asked.locals[t := l] == s.locals[t := l];
  }

  // ---------------------------------------------------------------- running alone

  function Solo(s: State, t: nat, n: nat): State
    decreases n
  {
    if n == 0 then s else Solo(Step(s, Move(t, Unlock, 0)), t, n - 1)
  }

  // No other thread holds the mutex; what they are in the middle of does not matter.
  ghost predicate Alone(s: State, t: nat) {
    Inv(s) && t in s.locals && forall u :: u in s.locals && u != t ==> !s.locals[u].held
  }

  lemma AloneWord(s: State, t: nat)
    requires Alone(s, t)
    ensures s.shared.word == UNLOCKED <==> !s.locals[t].held
    ensures Fits(s.shared, t, s.locals[t])
  {
    if s.shared.word != UNLOCKED {
      var h :| Held(s, h);
      assert h == t;
    }
  }

  // The holder of a mutex that does not count waits for itself.
  predicate Stuck(l: Local) {
    && l.held
    && match l.pc
       case Spin(_) => true
       case Fast(_) => true
       case Swap(_) => true
       case Sleep(_) => true
       case Parked(_) => true
       case _ => false
  }

  function Rank(pc: Pc): nat {
    match pc
    case Idle => 0
    case Suspended(_) => 3
    case TestOwner(_) => 4
    case Spin(left) => if left == 0 then 3 else 2
    case Try => 2
    case Fast(_) => 2
    case Swap(_) => 2
    case Sleep(_) => 3
    case Parked(_) => 3
    case Record(_) => 1
    case Clear(toWait) => if toWait then 6 else 3
    case Drop(leave) => if leave.Suspending? then 5 else 2
    case Wake(leave) => if leave.Suspending? then 4 else 1
  }

  // The call will come back with an error.
  predicate Refusing(kind: Kind, l: Local) {
    match l.pc
    case TestOwner(call) => if call == Unlock then !l.recorded else kind == ErrorCheck && l.held
    case Try => l.held
    case _ => false
  }

  predicate Nearer(kind: Kind, l: Local, l': Local) {
    && !Stuck(l')
    && if l'.pc.Idle? then l'.result == Zero <==> !Refusing(kind, l)
       else Rank(l'.pc) < Rank(l.pc) && (Refusing(kind, l') <==> Refusing(kind, l))
  }

  lemma NextNearer(s: Shared, t: nat, l: Local, any: Call)
    requires Fits(s, t, l) && !Stuck(l) && !l.pc.Idle? && (s.word == UNLOCKED <==> !l.held)
    ensures Nearer(s.kind, l, Next(s, t, l, any).1)
  {}

  lemma NextStuck(s: Shared, t: nat, l: Local, any: Call)
    requires Fits(s, t, l) && Stuck(l)
    ensures Stuck(Next(s, t, l, any).1) && Next(s, t, l, any).0.word != UNLOCKED
  {}

  lemma AloneStep(s: State, t: nat)
    requires Alone(s, t) && !s.locals[t].pc.Idle?
    ensures Alone(Step(s, Move(t, Unlock, 0)), t) && Step(s, Move(t, Unlock, 0)).shared.kind == s.shared.kind
    ensures Step(s, Move(t, Unlock, 0)).locals == s.locals[t := Next(s.shared, t, s.locals[t], Unlock).1]
  {
    StepKeeps(s, Move(t, Unlock, 0));
    NextOk(s.shared, t, s.locals[t], Unlock);
  }

  predicate Ends(s: State, t: nat, n: nat, before: Local, call: Call, granted: bool) {
    var s' := Solo(s, t, n);
    && t in s'.locals && s'.locals[t].pc.Idle? && Answered(s.shared.kind, before, call, s'.locals[t])
    && (s'.locals[t].result == Zero <==> granted)
  }

  lemma StepOn(s: State, t: nat, before: Local, call: Call)
    requires Alone(s, t) && !s.locals[t].pc.Idle? && !Stuck(s.locals[t]) && During(s.shared.kind, before, call, s.locals[t])
    ensures var s' := Step(s, Move(t, Unlock, 0));
            && Alone(s', t) && s'.shared.kind == s.shared.kind && Nearer(s.shared.kind, s.locals[t], s'.locals[t])
            && Continues(s.shared.kind, before, call, s'.locals[t])
  {
    AloneWord(s, t);
    NextNearer(s.shared, t, s.locals[t], Unlock);
    StepContinues(s, Move(t, Unlock, 0), t, before, call);
    AloneStep(s, t);
  }

  lemma {:induction false} Finishes(s: State, t: nat, before: Local, call: Call) returns (n: nat)
    requires Alone(s, t) && !s.locals[t].pc.Idle? && !Stuck(s.locals[t]) && During(s.shared.kind, before, call, s.locals[t])
    ensures n <= 6 && n <= Rank(s.locals[t].pc) && Ends(s, t, n, before, call, !Refusing(s.shared.kind, s.locals[t]))
    decreases Rank(s.locals[t].pc)
  {
    var s' := Step(s, Move(t, Unlock, 0));
    StepOn(s, t, before, call);
    if s'.locals[t].pc.Idle? {
      n := 1;
      assert Solo(s, t, 1) == Solo(s', t, 0) == s';
    } else {
      n := Finishes(s', t, before, call);
      n := n + 1;
      assert Solo(s, t, n) == Solo(s', t, n - 1);
    }
  }

  ghost predicate Returns(s: State, t: nat, n: nat) { t in Solo(s, t, n).locals && Solo(s, t, n).locals[t].pc.Idle? }

  lemma {:induction false} NeverFinishes(s: State, t: nat, n: nat)
    requires Alone(s, t) && Stuck(s.locals[t])
    ensures !Returns(s, t, n)
    decreases n
  {
    if n > 0 {
      AloneWord(s, t);
      NextStuck(s.shared, t, s.locals[t], Unlock);
      AloneStep(s, t);
      NeverFinishes(Step(s, Move(t, Unlock, 0)), t, n - 1);
    }
  }

  ghost predicate EndsSoon(s: State, t: nat, before: Local, call: Call, granted: bool) {
    exists n: nat :: n <= 6 && Ends(s, t, n, before, call, granted)
  }

  // While nobody else holds the mutex, a thread anywhere in its call comes back within six steps
  // of its own, unless it holds the mutex itself and the kind does not notice; it comes back with
  // an error exactly where its own account refuses it.
  lemma AloneReturns(s: State, t: nat, before: Local, call: Call)
    requires Alone(s, t) && !s.locals[t].pc.Idle? && During(s.shared.kind, before, call, s.locals[t])
    ensures (exists n: nat :: Returns(s, t, n)) <==> !Stuck(s.locals[t])
    ensures !Stuck(s.locals[t]) ==> EndsSoon(s, t, before, call, !Refusing(s.shared.kind, s.locals[t]))
  {
    if Stuck(s.locals[t]) {
      forall n: nat ensures !Returns(s, t, n) { NeverFinishes(s, t, n); }
    } else {
      var n := Finishes(s, t, before, call);
      assert Returns(s, t, n);
    }
  }

  // Does the thread get what it asks for, when nobody else holds the mutex?
  predicate Grantable(kind: Kind, l: Local, call: Call) {
    match call
    case Lock => !(kind == ErrorCheck && l.held)
    case TryLock => kind == Recursive || !l.held
    case Unlock => kind == Normal || l.recorded
    case CondWait => true
  }

  // From every reached state in which nobody else holds the mutex: a call that runs alone comes
  // back within six steps, and never exactly when the caller locks again what it holds and the kind
  // does not keep track.
  lemma RestReturns(kind: Kind, spins: nat, threads: set<nat>, moves: seq<Move>, s: State, t: nat, call: Call)
    requires Reached(kind, false, spins, threads, moves, s) && t in s.locals && !s.shared.unsupported
    requires s.locals[t].pc.Idle? && Proper(kind, s.locals[t], call)
    requires forall u :: u in s.locals && u != t ==> !s.locals[u].held
    ensures var s' := Step(s, Move(t, call, 0));
            if call == Lock && s.locals[t].held && !Counted(kind) then forall n: nat :: !Returns(s', t, n)
            else EndsSoon(s', t, s.locals[t], call, Grantable(kind, s.locals[t], call))
  {
    ReachedOk(kind, false, spins, threads, moves, s);
    var s' := Step(s, Move(t, call, 0));
    StepKeeps(s, Move(t, call, 0));
    BeginContinues(s.shared, t, s.locals[t], call);
    AloneReturns(s', t, s.locals[t], call);
  }

  // ---------------------------------------------------------------- spinning

  // While another thread holds an adaptive mutex, a lock call tries as often as the mutex says, or a
  // hundred times if it says zero, before it goes for the word in earnest.
  lemma {:induction false} SpinsOn(s: State, t: nat, left: nat)
    requires t in s.locals && s.locals[t].pc == Spin(left) && s.shared.word != UNLOCKED
    ensures Solo(s, t, left + 1) == State(s.shared, s.locals[t := s.locals[t].(pc := Fast(ByLock))])
    decreases left
  {
    var s' := Step(s, Move(t, Unlock, 0));
    if left == 0 {
      assert Solo(s, t, 1) == Solo(s', t, 0) == s';
    } else {
      assert s' == State(s.shared, s.locals[t := s.locals[t].(pc := Spin(left - 1))]);
      SpinsOn(s', t, left - 1);
      assert Solo(s, t, left + 1) == Solo(s', t, left);
      assert s'.locals[t := s'.locals[t].(pc := Fast(ByLock))] == s.locals[t := s.locals[t].(pc := Fast(ByLock))];
    }
  }

  lemma AdaptiveSpins(spins: nat, threads: set<nat>, moves: seq<Move>, s: State, t: nat)
    requires Reached(Adaptive, false, spins, threads, moves, s) && t in s.locals && !s.shared.unsupported
    requires s.locals[t].pc.Idle? && s.shared.word != UNLOCKED
    ensures var tries := if s.shared.spins == 0 then 100 else s.shared.spins;
            var s' := Solo(Step(s, Move(t, Lock, 0)), t, tries + 1);
            s'.shared == s.shared && t in s'.locals && s'.locals[t] == s.locals[t].(call := Lock, pc := Fast(ByLock))
  {
    ReachedOk(Adaptive, false, spins, threads, moves, s);
    SpinsOn(Step(s, Move(t, Lock, 0)), t, if s.shared.spins == 0 then 100 else s.shared.spins);
  }
}
