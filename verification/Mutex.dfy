/** The futex mutex in its four kinds, driven by arbitrarily many threads. The state word is
    0 when free, 1 when held and 2 when held with possible sleepers; owner and recursion count
    are kept beside it. `Step` performs one thread's next atomic operation. */
module Mutex {
  import opened Arithmetic

  const DEFAULT_ADAPTIVE_SPINS: nat := 100

  const UNLOCKED: nat := 0
  const LOCKED: nat := 1
  const CONTENDED: nat := 2

  datatype Kind = Normal | Recursive | ErrorCheck | Adaptive

  datatype Code = Zero | Busy | Deadlock | NotOwner | NotSupported

  /** `CondWait` is the release and re-acquisition that `pthread_cond_wait` performs. */
  datatype Call = Lock | TryLock | Unlock | CondWait

  /** Why a thread acquires; `saved` is the recursion count to restore. */
  datatype Goal = ByLock | ByTry | AfterWait(saved: nat)

  datatype Leave = Unlocking | Suspending(saved: nat)

  /** The operation a thread performs next. */
  datatype Pc =
    | Idle
    | Suspended(saved: nat)
    | TestOwner(call: Call)
    | Spin(left: nat)
    | Try
    | Fast(goal: Goal)
    | Swap(goal: Goal)
    | Sleep(goal: Goal)
    | Parked(goal: Goal)
    | Record(goal: Goal)
    | Clear(toWait: bool)
    | Drop(leave: Leave)
    | Wake(leave: Leave)

  /** `level` is what the caller believes: lock calls that succeeded less unlock calls that
      did. `held` says the thread took the word, `recorded` that it is entered as owner; `call` is
      its latest call and `result` what its latest finished call returned. */
  datatype Local = Local(level: nat, held: bool, taken: Goal, recorded: bool, pc: Pc, call: Call, result: Code)

  const OUTSIDE: Local := Local(0, false, ByLock, false, Idle, Unlock, Zero)

  datatype Shared = Shared(kind: Kind, unsupported: bool, spins: nat, word: nat, owner: nat, recursion: nat)

  datatype State = State(shared: Shared, locals: map<nat, Local>)

  /** `wake` is the sleeper the kernel picks when this move is a futex wake. */
  datatype Move = Move(tid: nat, call: Call, wake: nat)

  // ---------------------------------------------------------------- steps

  function Step(s: State, m: Move): State {
    if m.tid !in s.locals then s
    else
      var l := s.locals[m.tid];
      var (shared, next) := Next(s.shared, m.tid, l, m.call);
      var locals := s.locals[m.tid := next];
      State(shared, if l.pc.Wake? then Rouse(locals, m.wake) else locals)
  }

  function Rouse(locals: map<nat, Local>, t: nat): map<nat, Local> {
    if t in locals && locals[t].pc.Parked? then locals[t := locals[t].(pc := Swap(locals[t].pc.goal))] else locals
  }

  function Next(s: Shared, t: nat, l: Local, call: Call): (Shared, Local) {
    match l.pc
    case Idle => (s, Begin(s, l.(call := call), call))
    case Suspended(saved) => (s, l.(pc := Fast(AfterWait(saved))))
    case TestOwner(asked) => Tested(s, s.owner == t, l, asked)
    case Spin(left) =>
      if left == 0 then (s, l.(pc := Fast(ByLock)))
      else if s.word == UNLOCKED then (s.(word := LOCKED), Gained(s.kind, l, ByLock))
      else (s, l.(pc := Spin(left - 1)))
    case Try =>
      if s.word == UNLOCKED then (s.(word := LOCKED), Gained(s.kind, l, ByTry))
      else (s, Done(l, Busy))
    case Fast(goal) =>
      if s.word == UNLOCKED then (s.(word := LOCKED), Gained(s.kind, l, goal))
      else (s, l.(pc := Swap(goal)))
    case Swap(goal) =>
      (s.(word := CONTENDED), if s.word == UNLOCKED then Gained(s.kind, l, goal) else l.(pc := Sleep(goal)))
    case Sleep(goal) => (s, l.(pc := if s.word == CONTENDED then Parked(goal) else Swap(goal)))
    case Parked(goal) => (s, l.(pc := Swap(goal)))
    case Record(goal) =>
      (s.(owner := t, recursion := if goal.AfterWait? then goal.saved else 1), Done(l.(recorded := true), Zero))
    case Clear(toWait) =>
      (s.(owner := 0, recursion := 0),
       l.(recorded := false, pc := Drop(if toWait then Suspending(s.recursion) else Unlocking)))
    case Drop(leave) =>
      var given := l.(held := false, level := if leave.Unlocking? then 0 else l.level);
      (s.(word := UNLOCKED), if s.word == CONTENDED then given.(pc := Wake(leave)) else Left(given, leave))
    case Wake(leave) => (s, Left(l, leave))
  }

  function Done(l: Local, result: Code): Local { l.(pc := Idle, result := result) }

  function Left(l: Local, leave: Leave): Local {
    match leave
    case Unlocking => Done(l, Zero)
    case Suspending(saved) => l.(pc := Suspended(saved))
  }

  // The kinds whose owner and recursion count decide what a call does.
  predicate Counted(kind: Kind) { kind == Recursive || kind == ErrorCheck }

  // Does this way of taking the lock enter the thread as its owner?
  predicate Records(kind: Kind, goal: Goal) {
    kind != Normal && (kind == Adaptive ==> goal != ByLock)
  }

  function Gained(kind: Kind, l: Local, goal: Goal): Local {
    var gained := l.(held := true, taken := goal, level := if goal.AfterWait? then l.level else 1);
    if Records(kind, goal) then gained.(pc := Record(goal)) else Done(gained, Zero)
  }

  // Releasing a mutex one does not hold is the caller's error where the program does not check it.
  function Begin(s: Shared, l: Local, call: Call): Local {
    if call.CondWait? then
      if !l.held then l else l.(pc := if s.kind == Normal then Drop(Suspending(0)) else Clear(true))
    else if s.unsupported then Done(l, NotSupported)
    else
      match call
      case Lock =>
        l.(pc := match s.kind
                 case Normal => Fast(ByLock)
                 case Recursive => TestOwner(Lock)
                 case ErrorCheck => TestOwner(Lock)
                 case Adaptive => Spin(if s.spins == 0 then DEFAULT_ADAPTIVE_SPINS else s.spins))
      case TryLock => l.(pc := if s.kind == Recursive then TestOwner(TryLock) else Try)
      case Unlock =>
        if s.kind != Normal then l.(pc := TestOwner(Unlock))
        else if l.held then l.(pc := Drop(Unlocking))
        else l
      case CondWait => l
  }

  function Tested(s: Shared, mine: bool, l: Local, call: Call): (Shared, Local) {
    if call == Unlock then
      if !mine then (s, Done(l, NotOwner))
      else if s.recursion > 1 then
        (s.(recursion := s.recursion - 1), Done(l.(level := if l.level == 0 then 0 else l.level - 1), Zero))
      else (s, l.(pc := Clear(false)))
    else if mine then
      if s.kind == ErrorCheck then (s, Done(l, Deadlock))
      else (s.(recursion := (s.recursion + 1) % WORD), Done(l.(level := l.level + 1), Zero))
    else (s, l.(pc := if call == Lock then Fast(ByLock) else Try))
  }

  // ---------------------------------------------------------------- invariant

  // Between calls, or in a call that has not changed anything yet.
  predicate AtRest(kind: Kind, l: Local) {
    && (if l.held then l.level >= 1 else l.level == 0)
    && (l.held ==> (l.recorded <==> Records(kind, l.taken)))
  }

  predicate SavedOk(kind: Kind, l: Local, saved: nat) {
    l.level >= 1 && (Counted(kind) ==> saved == l.level % WORD) && (kind == Adaptive ==> saved <= 1)
  }

  predicate SeekingOk(kind: Kind, l: Local, goal: Goal) {
    if goal.AfterWait? then !l.held && SavedOk(kind, l, goal.saved)
    else AtRest(kind, l) && (Counted(kind) ==> !l.held)
  }

  predicate PcOk(kind: Kind, l: Local) {
    match l.pc
    case Idle => AtRest(kind, l)
    case Suspended(saved) => !l.held && SavedOk(kind, l, saved)
    case TestOwner(call) => AtRest(kind, l) && kind != Normal && (call != Unlock ==> Counted(kind))
    case Spin(_) => AtRest(kind, l) && kind == Adaptive
    case Try => AtRest(kind, l)
    case Fast(goal) => SeekingOk(kind, l, goal)
    case Swap(goal) => SeekingOk(kind, l, goal)
    case Sleep(goal) => SeekingOk(kind, l, goal)
    case Parked(goal) => SeekingOk(kind, l, goal)
    case Record(goal) =>
      l.held && !l.recorded && goal == l.taken && Records(kind, goal)
      && (if goal.AfterWait? then SavedOk(kind, l, goal.saved) else l.level == 1)
    case Clear(toWait) => l.held && l.level >= 1 && (l.recorded || (toWait && kind == Adaptive))
    case Drop(leave) => l.held && !l.recorded && l.level >= 1 && (leave.Suspending? ==> SavedOk(kind, l, leave.saved))
    case Wake(leave) => !l.held && (if leave.Suspending? then SavedOk(kind, l, leave.saved) else l.level == 0)
  }

  predicate LocalOk(s: Shared, t: nat, l: Local) {
    && PcOk(s.kind, l)
    && (l.recorded <==> s.owner == t)
    && (l.recorded ==> l.held && s.kind != Normal && (Counted(s.kind) ==> s.recursion == l.level % WORD))
    && (l.held ==> s.word != UNLOCKED)
  }

  predicate SharedOk(s: Shared) {
    s.word <= CONTENDED && (s.kind == Adaptive ==> s.recursion <= 1)
  }

  ghost predicate Held(s: State, t: nat) { t in s.locals && s.locals[t].held }

  ghost predicate OneHolder(s: State) {
    && (forall t, u :: Held(s, t) && Held(s, u) ==> t == u)
    && (s.shared.word != UNLOCKED ==> exists t :: Held(s, t))
  }

  ghost predicate Inv(s: State) {
    && SharedOk(s.shared) && 0 !in s.locals
    && (s.shared.owner != 0 ==> s.shared.owner in s.locals)
    && (forall t :: t in s.locals ==> LocalOk(s.shared, t, s.locals[t]))
    && OneHolder(s)
  }

  // The part of a step that does not concern other threads.
  predicate OwnStepOk(s: Shared, s': Shared, t: nat, l: Local, l': Local) {
    && s'.kind == s.kind && SharedOk(s')
    && LocalOk(s', t, l')
    && (s'.owner != s.owner ==> l.held && (s'.owner == t || s'.owner == 0))
    && (s'.recursion != s.recursion ==> l.held)
    && (s'.word == UNLOCKED <==> (s.word == UNLOCKED && !l'.held) || (l.held && !l'.held))
    && (l'.held && !l.held ==> s.word == UNLOCKED)
  }

  lemma NextOk(s: Shared, t: nat, l: Local, call: Call)
    requires SharedOk(s) && t != 0 && LocalOk(s, t, l)
    ensures OwnStepOk(s, Next(s, t, l, call).0, t, l, Next(s, t, l, call).1)
  {
    match l.pc
    case Idle =>
    case TestOwner(asked) => TestedOk(s, t, l, asked);
    case Clear(_) =>
    case Drop(_) =>
    case Wake(_) =>
    case Record(_) =>
    case _ => SeekOk(s, t, l, call);
  }

  lemma SeekOk(s: Shared, t: nat, l: Local, call: Call)
    requires SharedOk(s) && t != 0 && LocalOk(s, t, l)
    requires !l.pc.Idle? && !l.pc.TestOwner? && !l.pc.Clear? && !l.pc.Drop? && !l.pc.Wake? && !l.pc.Record?
    ensures OwnStepOk(s, Next(s, t, l, call).0, t, l, Next(s, t, l, call).1)
  {}

  lemma TestedOk(s: Shared, t: nat, l: Local, asked: Call)
    requires SharedOk(s) && t != 0 && LocalOk(s, t, l) && l.pc == TestOwner(asked)
    ensures OwnStepOk(s, Tested(s, s.owner == t, l, asked).0, t, l, Tested(s, s.owner == t, l, asked).1)
  {
    LevelWraps(l.level);
  }

  // Another thread's account survives a step that leaves its ownership alone.
  lemma OthersKeep(s: State, s': State, t: nat, l': Local)
    requires Inv(s) && t in s.locals && s'.locals == s.locals[t := l']
    requires OwnStepOk(s.shared, s'.shared, t, s.locals[t], l')
    ensures Inv(s')
  {
    forall u | u in s'.locals ensures LocalOk(s'.shared, u, s'.locals[u]) {
      if u != t { assert Held(s, t) ==> !Held(s, u); }
    }
    if s'.shared.word != UNLOCKED {
      if l'.held { assert Held(s', t); }
      else {
        var h :| Held(s, h);
        assert h != t && Held(s', h);
      }
    }
    forall u | Held(s', u) && u != t ensures !Held(s', t) {
      assert Held(s, u) && LocalOk(s.shared, u, s.locals[u]);
      assert s.shared.word != UNLOCKED;
      assert !Held(s, t);
    }
    assert forall u, v :: Held(s', u) && Held(s', v) && u != t && v != t ==> Held(s, u) && Held(s, v);
  }

  lemma RouseKeeps(s: State, t: nat)
    requires Inv(s)
    ensures Inv(State(s.shared, Rouse(s.locals, t)))
  {
    var s' := State(s.shared, Rouse(s.locals, t));
    assert forall u :: Held(s', u) <==> Held(s, u);
  }

  lemma StepKeeps(s: State, m: Move)
    requires Inv(s)
    ensures Inv(Step(s, m))
  {
    if m.tid in s.locals {
      var l := s.locals[m.tid];
      NextOk(s.shared, m.tid, l, m.call);
      var (shared, l') := Next(s.shared, m.tid, l, m.call);
      OthersKeep(s, State(shared, s.locals[m.tid := l']), m.tid, l');
      RouseKeeps(State(shared, s.locals[m.tid := l']), m.wake);
    }
  }

  // ---------------------------------------------------------------- sleepers

  predicate Sleeping(l: Local) { l.pc.Parked? }

  // A thread that will wake a sleeper or mark the word again.
  predicate Minding(l: Local) { l.pc.Wake? || l.pc.Swap? }

  ghost predicate Minded(s: State) {
    s.shared.word == CONTENDED || exists u :: u in s.locals && Minding(s.locals[u])
  }

  ghost predicate NoneStranded(s: State) {
    forall t :: t in s.locals && Sleeping(s.locals[t]) ==> Minded(s)
  }

  // A futex wake reaches a sleeper when there is one.
  ghost predicate WakeReaches(s: State, m: Move) {
    (m.tid in s.locals && s.locals[m.tid].pc.Wake? && exists t :: t in s.locals && Sleeping(s.locals[t]))
    ==> m.wake in s.locals && Sleeping(s.locals[m.wake])
  }

  lemma StepMinds(s: State, m: Move)
    requires NoneStranded(s) && WakeReaches(s, m)
    ensures NoneStranded(Step(s, m))
  {
    var s' := Step(s, m);
    if m.tid in s.locals {
      var l := s.locals[m.tid];
      forall t | t in s'.locals && Sleeping(s'.locals[t]) ensures Minded(s') {
        if l.pc.Wake? {
          assert t in s.locals && Sleeping(s.locals[t]);
          assert Minding(s'.locals[m.wake]);
        } else if l.pc.Drop? && s.shared.word == CONTENDED {
          assert Minding(s'.locals[m.tid]);
        } else if s'.shared.word != CONTENDED {
          assert t != m.tid;
          assert Sleeping(s.locals[t]);
          var u :| u in s.locals && Minding(s.locals[u]);
          assert u != m.tid && s'.locals[u] == s.locals[u];
        }
      }
    }
  }

  // ---------------------------------------------------------------- runs

  function Start(kind: Kind, unsupported: bool, spins: nat, threads: set<nat>): State {
    State(Shared(kind, unsupported, spins, UNLOCKED, 0, 0), map t | t in threads :: OUTSIDE)
  }

  function Run(s: State, moves: seq<Move>): State {
    if moves == [] then s else Step(Run(s, moves[..|moves| - 1]), moves[|moves| - 1])
  }

  // In every state of the run, a futex wake reaches a sleeper when there is one.
  ghost predicate WakesReach(s: State, moves: seq<Move>) {
    moves != [] ==> WakesReach(s, moves[..|moves| - 1]) && WakeReaches(Run(s, moves[..|moves| - 1]), moves[|moves| - 1])
  }

  lemma {:induction false} RunKeeps(s: State, moves: seq<Move>)
    requires Inv(s)
    ensures Inv(Run(s, moves)) && Run(s, moves).shared.kind == s.shared.kind
  {
    if moves != [] {
      RunKeeps(s, moves[..|moves| - 1]);
      StepKeeps(Run(s, moves[..|moves| - 1]), moves[|moves| - 1]);
    }
  }

  lemma {:induction false} RunMinds(s: State, moves: seq<Move>)
    requires NoneStranded(s) && WakesReach(s, moves)
    ensures NoneStranded(Run(s, moves))
  {
    if moves != [] {
      RunMinds(s, moves[..|moves| - 1]);
      StepMinds(Run(s, moves[..|moves| - 1]), moves[|moves| - 1]);
    }
  }

  /** A state some run of some set of threads reaches, with the threads' tids not zero. */
  ghost predicate Reached(kind: Kind, unsupported: bool, spins: nat, threads: set<nat>, moves: seq<Move>, s: State) {
    0 !in threads && s == Run(Start(kind, unsupported, spins, threads), moves)
  }

  lemma ReachedOk(kind: Kind, unsupported: bool, spins: nat, threads: set<nat>, moves: seq<Move>, s: State)
    requires Reached(kind, unsupported, spins, threads, moves, s)
    ensures Inv(s) && s.shared.kind == kind
  {
    assert Inv(Start(kind, unsupported, spins, threads));
    RunKeeps(Start(kind, unsupported, spins, threads), moves);
  }

  // Two threads never hold the mutex at once, and the word is nonzero exactly while one does.
  lemma AtMostOneHolder(kind: Kind, unsupported: bool, spins: nat, threads: set<nat>, moves: seq<Move>, s: State, t: nat, u: nat)
    requires Reached(kind, unsupported, spins, threads, moves, s)
    ensures Held(s, t) && Held(s, u) ==> t == u
    ensures s.shared.word != UNLOCKED <==> exists h :: Held(s, h)
  {
    ReachedOk(kind, unsupported, spins, threads, moves, s);
  }

  // Between calls the owner field names the holder of a recursive or error-checking mutex and
  // nobody else, and the recursion field counts its unmatched locks, modulo the word size.
  lemma OwnerExact(kind: Kind, unsupported: bool, spins: nat, threads: set<nat>, moves: seq<Move>, s: State, t: nat)
    requires Reached(kind, unsupported, spins, threads, moves, s) && t in s.locals && s.locals[t].pc.Idle?
    ensures Counted(kind) ==> (s.shared.owner == t <==> s.locals[t].held)
    ensures Counted(kind) && s.locals[t].held ==> s.shared.recursion == s.locals[t].level % WORD
    ensures s.locals[t].held <==> s.locals[t].level > 0
  {
    ReachedOk(kind, unsupported, spins, threads, moves, s);
  }

  // A holder's unlock is refused exactly when the mutex is adaptive and was taken by the plain
  // lock call, which enters no owner.
  lemma UnlockRefused(kind: Kind, spins: nat, threads: set<nat>, moves: seq<Move>, s: State, t: nat, wake: nat)
    requires Reached(kind, false, spins, threads, moves, s) && t in s.locals
    requires s.locals[t].pc.Idle? && s.locals[t].held
    requires !s.shared.unsupported
    ensures var asked := Step(s, Move(t, Unlock, wake));
            var tested := Step(asked, Move(t, Unlock, wake));
            if kind == Normal then asked.locals[t].pc == Drop(Unlocking)
            else (tested.locals[t].pc.Idle? && tested.locals[t].result == NotOwner
                  <==> kind == Adaptive && s.locals[t].taken == ByLock)
  {
    ReachedOk(kind, false, spins, threads, moves, s);
  }

  // An unlock by a thread that does not hold the mutex changes nothing and says so.
  lemma StrangerRefused(kind: Kind, spins: nat, threads: set<nat>, moves: seq<Move>, s: State, t: nat, wake: nat)
    requires Reached(kind, false, spins, threads, moves, s) && t in s.locals && kind != Normal
    requires s.locals[t].pc.Idle? && !s.locals[t].held && !s.shared.unsupported
    ensures var tested := Step(Step(s, Move(t, Unlock, wake)), Move(t, Unlock, wake));
            tested == State(s.shared, s.locals[t := Done(s.locals[t].(call := Unlock), NotOwner)])
  {
    ReachedOk(kind, false, spins, threads, moves, s);
    var asked := Step(s, Move(t, Unlock, wake));
    assert asked.locals[t].pc == TestOwner(Unlock) && asked.shared == s.shared;
    var l := Done(s.locals[t].(call := Unlock), NotOwner);
    assert s.locals[t := l] == asked.locals[t := l];
  }

  // The recursive holder's unlock gives the mutex up exactly when its nesting, modulo the word
  // size, is at most one; otherwise it takes one level off and keeps the mutex.
  lemma UnlockTakesOneLevel(kind: Kind, spins: nat, threads: set<nat>, moves: seq<Move>, s: State, t: nat, wake: nat)
    requires Reached(kind, false, spins, threads, moves, s) && t in s.locals && Counted(kind)
    requires s.locals[t].pc.Idle? && s.locals[t].held && !s.shared.unsupported
    ensures var l := Step(Step(s, Move(t, Unlock, wake)), Move(t, Unlock, wake)).locals[t];
            if s.locals[t].level % WORD <= 1 then l.pc == Clear(false)
            else l.pc.Idle? && l.result == Zero && l.held && l.level == s.locals[t].level - 1
  {
    ReachedOk(kind, false, spins, threads, moves, s);
  }

  // A thread inside `pthread_cond_wait`, between giving the mutex up and holding it again.
  predicate InWait(pc: Pc) {
    match pc
    case Suspended(_) => true
    case Clear(toWait) => toWait
    case Drop(leave) => leave.Suspending?
    case Wake(leave) => leave.Suspending?
    case Fast(goal) => goal.AfterWait?
    case Swap(goal) => goal.AfterWait?
    case Sleep(goal) => goal.AfterWait?
    case Parked(goal) => goal.AfterWait?
    case Record(goal) => goal.AfterWait?
    case _ => false
  }

  // The wait either goes on or has ended with the mutex held, at the nesting it started with.
  predicate WaitGoesOn(l: Local, level: nat) {
    l.level == level && (InWait(l.pc) || (l.pc.Idle? && l.held))
  }

  lemma WaitStep(s: State, m: Move, t: nat)
    requires Inv(s) && t in s.locals && InWait(s.locals[t].pc)
    ensures t in Step(s, m).locals && WaitGoesOn(Step(s, m).locals[t], s.locals[t].level)
  {}

  // Whatever the other threads do meanwhile, a thread that comes back from the wait holds the
  // mutex at the nesting it had when it went in, with owner and recursion count restored.
  lemma {:induction false} WaitRestores(s: State, moves: seq<Move>, t: nat)
    requires Inv(s) && t in s.locals && InWait(s.locals[t].pc)
    requires forall k :: 0 <= k < |moves| ==> t in Run(s, moves[..k]).locals && InWait(Run(s, moves[..k]).locals[t].pc)
    ensures var s' := Run(s, moves);
            && t in s'.locals && WaitGoesOn(s'.locals[t], s.locals[t].level)
            && (s'.locals[t].pc.Idle? && Counted(s.shared.kind)
                ==> s'.shared.owner == t && s'.shared.recursion == s.locals[t].level % WORD)
  {
    if moves != [] {
      var n := |moves| - 1;
      forall k | 0 <= k < n ensures t in Run(s, moves[..n][..k]).locals && InWait(Run(s, moves[..n][..k]).locals[t].pc) {
        assert moves[..n][..k] == moves[..k];
      }
      WaitRestores(s, moves[..n], t);
      RunKeeps(s, moves[..n]);
      WaitStep(Run(s, moves[..n]), moves[n], t);
      EndOk(s, moves, t);
    }
  }

  lemma EndOk(s: State, moves: seq<Move>, t: nat)
    requires Inv(s) && t in Run(s, moves).locals
    ensures var s' := Run(s, moves);
            s'.locals[t].pc.Idle? && s'.locals[t].held && Counted(s.shared.kind)
            ==> s'.shared.owner == t && s'.shared.recursion == s'.locals[t].level % WORD
  {
    RunKeeps(s, moves);
  }

  // No sleeper is forgotten: the word is marked, or a wake is owed, or an awake contender is
  // about to mark the word.
  lemma SleepersMinded(kind: Kind, unsupported: bool, spins: nat, threads: set<nat>, moves: seq<Move>, s: State, t: nat)
    requires Reached(kind, unsupported, spins, threads, moves, s)
    requires WakesReach(Start(kind, unsupported, spins, threads), moves)
    requires t in s.locals && Sleeping(s.locals[t])
    ensures s.shared.word == CONTENDED || exists u :: u in s.locals && Minding(s.locals[u])
  {
    RunMinds(Start(kind, unsupported, spins, threads), moves);
  }

  // When nobody holds the mutex and no thread is in the middle of an operation, nobody sleeps.
  lemma NobodySleepsOnAFreeMutex(kind: Kind, unsupported: bool, spins: nat, threads: set<nat>, moves: seq<Move>, s: State, t: nat)
    requires Reached(kind, unsupported, spins, threads, moves, s)
    requires WakesReach(Start(kind, unsupported, spins, threads), moves)
    requires forall u :: u in s.locals ==> !s.locals[u].held && (s.locals[u].pc.Idle? || s.locals[u].pc.Suspended? || Sleeping(s.locals[u]))
    requires t in s.locals
    ensures !Sleeping(s.locals[t])
  {
    ReachedOk(kind, unsupported, spins, threads, moves, s);
    RunMinds(Start(kind, unsupported, spins, threads), moves);
  }

  // The adaptive mutex fails its own holder: lock, then unlock, returns the not-owner error
  // and leaves the mutex held.
  lemma AdaptiveLockCannotBeUndone()
    ensures var s := Run(Start(Adaptive, false, 0, {1}), [Move(1, Lock, 0), Move(1, Lock, 0), Move(1, Unlock, 0), Move(1, Unlock, 0)]);
            1 in s.locals && s.locals[1].result == NotOwner && s.locals[1].held && s.shared.word == LOCKED
  {
    var s0 := Start(Adaptive, false, 0, {1});
    var m, n := Move(1, Lock, 0), Move(1, Unlock, 0);
    assert [m, m, n, n][..3] == [m, m, n] && [m, m, n][..2] == [m, m] && [m, m][..1] == [m] && [m][..0] == [];
    assert Run(s0, [m]) == Step(s0, m);
    assert Run(s0, [m, m]) == Step(Step(s0, m), m);
    assert Run(s0, [m, m, n]) == Step(Step(Step(s0, m), m), n);
  }

  /** The mutex as the program keeps it. One call of `Advance` is one atomic operation of one
      thread; the methods below it are the program's functions, stopped between operations. */
  class PthreadMutex {
    const kind: Kind
    const unsupported: bool
    const spins: nat
    var state: nat
    var recursion: nat
    var owner: nat
    var locals: map<nat, Local>

    ghost function Snapshot(): State
      reads this
    {
      State(Shared(kind, unsupported, spins, state, owner, recursion), locals)
    }

    constructor (kind: Kind, unsupported: bool, spins: nat, threads: set<nat>)
      requires 0 !in threads
      ensures Inv(Snapshot()) && NoneStranded(Snapshot()) && Snapshot() == Start(kind, unsupported, spins, threads)
    {
      this.kind, this.unsupported, this.spins := kind, unsupported, spins;
      state, recursion, owner := UNLOCKED, 0, 0;
      locals := map t | t in threads :: OUTSIDE;
    }

    method CompareExchange(expected: nat, next: nat) returns (ok: bool)
      modifies this`state
      ensures ok == (old(state) == expected) && state == if ok then next else old(state)
    {
      ok := state == expected;
      if ok { state := next; }
    }

    method Exchange(next: nat) returns (previous: nat)
      modifies this`state
      ensures previous == old(state) && state == next
    {
      previous := state;
      state := next;
    }

    method Advance(m: Move)
      requires Inv(Snapshot()) && m.tid in locals
      modifies this
      ensures Snapshot() == Step(old(Snapshot()), m) && Inv(Snapshot())
      ensures old(NoneStranded(Snapshot()) && WakeReaches(Snapshot(), m)) ==> NoneStranded(Snapshot())
    {
      StepKeeps(Snapshot(), m);
      if NoneStranded(Snapshot()) && WakeReaches(Snapshot(), m) { StepMinds(Snapshot(), m); }
      var l := locals[m.tid];
      var next;
      match l.pc {
        case Idle => next := Begin(Shared(kind, unsupported, spins, state, owner, recursion), l.(call := m.call), m.call);
        case TestOwner(call) => next := UnderOwnership(m.tid, l, call);
        case Record(_) | Clear(_) | Drop(_) | Wake(_) | Suspended(_) => next := Hand(m.tid, l);
        case _ => next := Acquire(l);
      }
      locals := locals[m.tid := next];
      if l.pc.Wake? { locals := Rouse(locals, m.wake); }
    }

    // One operation of `acquire`, `try_acquire` and the adaptive spin.
    method Acquire(l: Local) returns (next: Local)
      requires l.pc.Spin? || l.pc.Try? || l.pc.Fast? || l.pc.Swap? || l.pc.Sleep? || l.pc.Parked?
      modifies this`state
      ensures forall t, call :: (Snapshot().shared, next) == Next(old(Snapshot()).shared, t, l, call)
      ensures next.held <==> l.held || (old(state) == UNLOCKED && state != UNLOCKED)
    {
      match l.pc
      case Spin(left) =>
        if left == 0 { return l.(pc := Fast(ByLock)); }
        var ok := CompareExchange(UNLOCKED, LOCKED);
        next := if ok then Gained(kind, l, ByLock) else l.(pc := Spin(left - 1));
      case Try =>
        var ok := CompareExchange(UNLOCKED, LOCKED);
        next := if ok then Gained(kind, l, ByTry) else Done(l, Busy);
      case Fast(goal) =>
        var ok := CompareExchange(UNLOCKED, LOCKED);
        next := if ok then Gained(kind, l, goal) else l.(pc := Swap(goal));
      case Swap(goal) =>
        var previous := Exchange(CONTENDED);
        next := if previous == UNLOCKED then Gained(kind, l, goal) else l.(pc := Sleep(goal));
      case Sleep(goal) => next := l.(pc := if state == CONTENDED then Parked(goal) else Swap(goal));
      case Parked(goal) => next := l.(pc := Swap(goal));
    }

    // The owner test at the head of lock, try-lock and unlock.
    method UnderOwnership(t: nat, l: Local, call: Call) returns (next: Local)
      modifies this`recursion
      ensures (Snapshot().shared, next) == Tested(old(Snapshot()).shared, old(owner) == t, l, call)
      ensures call == Unlock ==> (next == Done(l, NotOwner) <==> owner != t)
      ensures call != Unlock ==> (next.pc == Idle <==> owner == t)
      ensures call != Unlock && owner == t ==>
        if kind == ErrorCheck then next.result == Deadlock && next.level == l.level && recursion == old(recursion)
        else next.result == Zero && next.level == l.level + 1 && recursion == (old(recursion) + 1) % WORD
    {
      var mine := owner == t;
      if call == Unlock {
        if !mine { return Done(l, NotOwner); }
        if recursion > 1 {
          recursion := recursion - 1;
          return Done(l.(level := if l.level == 0 then 0 else l.level - 1), Zero);
        }
        next := l.(pc := Clear(false));
      } else if mine {
        if kind == ErrorCheck { return Done(l, Deadlock); }
        recursion := (recursion + 1) % WORD;
        next := Done(l.(level := l.level + 1), Zero);
      } else {
        next := l.(pc := if call == Lock then Fast(ByLock) else Try);
      }
    }

    // Entering and clearing the owner, and giving the word up.
    method Hand(t: nat, l: Local) returns (next: Local)
      requires l.pc.Record? || l.pc.Clear? || l.pc.Drop? || l.pc.Wake? || l.pc.Suspended?
      modifies this`state, this`owner, this`recursion
      ensures forall call :: (Snapshot().shared, next) == Next(old(Snapshot()).shared, t, l, call)
    {
      match l.pc
      case Record(goal) =>
        owner, recursion := t, 1;
        if goal.AfterWait? { recursion := goal.saved; }
        next := Done(l.(recorded := true), Zero);
      case Clear(toWait) =>
        var count := recursion;
        recursion, owner := 0, 0;
        next := l.(recorded := false, pc := Drop(if toWait then Suspending(count) else Unlocking));
      case Drop(leave) =>
        var previous := Exchange(UNLOCKED);
        var given := l.(held := false, level := if leave.Unlocking? then 0 else l.level);
        next := if previous == CONTENDED then given.(pc := Wake(leave)) else Left(given, leave);
      case Wake(leave) => next := Left(l, leave);
      case Suspended(saved) => next := l.(pc := Fast(AfterWait(saved)));
    }
  }
}
