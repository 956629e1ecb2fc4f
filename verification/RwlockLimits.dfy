/** Two runs after which a thread waits for a lock that nobody holds or asks for: one in which a
    reader's announcement of a write phase comes too late, and one in which a refused reader is the
    last one out. */
module RwlockLimits {
  import opened Arithmetic
  import opened Tally
  import opened Rwlock
  import opened RwlockCalls
  import opened RwlockAlone

  ghost predicate Reachable(s: State) { exists moves :: Run(Start(PreferReader, {1, 2, 3}), moves) == s }

  lemma Goes(s: State, t: nat, call: Call)
    requires Reachable(s)
    ensures Reachable(Step(s, Move(t, call, false)))
  {
    var moves :| Run(Start(PreferReader, {1, 2, 3}), moves) == s;
    var more := moves + [Move(t, call, false)];
    assert more[..|more| - 1] == moves;
    assert Run(Start(PreferReader, {1, 2, 3}), more) == Step(s, Move(t, call, false));
  }

  predicate Is(l: Local, holds: nat, writing: bool, pc: Pc) { l.holds == holds && l.writing == writing && l.pc == pc }

  // The words, and three threads of which the first holds `holds` read locks and the second may
  // hold the write lock.
  ghost predicate Snap(s: State, readers: Readers, phase: PhaseWord, holds: nat, writing: bool, one: Pc, two: Pc, three: Pc) {
    && Reachable(s) && s.kind == PreferReader && s.locals.Keys == {1, 2, 3}
    && s.readers == readers && s.phaseFutex == phase && s.currentWriter == (if writing then 2 else 0)
    && Is(s.locals[1], holds, false, one) && Is(s.locals[2], 0, writing, two) && Is(s.locals[3], 0, false, three)
  }

  const FREE: Readers := Readers(false, false, false, 0)
  const ASKED: Readers := Readers(false, true, false, 0)
  const TAKEN: Readers := Readers(true, true, false, 0)

  lemma Begins() returns (s: State)
    ensures Snap(s, FREE, RESET, 0, false, Idle, Idle, Idle)
  {
    s := Start(PreferReader, {1, 2, 3});
    assert Run(s, []) == s;
  }

  function Next(s: State, t: nat, call: Call): State { Step(s, Move(t, call, false)) }

  // ---------------------------------------------------------------- a late announcement

  // Thread 2 claims the right to write, and is about to start the write phase.
  lemma WriterClaims(s: State) returns (s': State)
    requires Snap(s, FREE, RESET, 0, false, Idle, Idle, Idle)
    ensures Snap(s', ASKED, RESET, 0, false, Idle, Claims(PhaseCas(FREE)), Idle)
  {
    Goes(s, 2, WrLock);
    var s1 := Next(s, 2, WrLock);
    Goes(s1, 2, WrLock);
    var s2 := Next(s1, 2, WrLock);
    Goes(s2, 2, WrLock);
    var s3 := Next(s2, 2, WrLock);
    assert Snap(s3, ASKED, RESET, 0, false, Idle, Claims(Publish(FREE, false)), Idle);
    Goes(s3, 2, WrLock);
    s' := Next(s3, 2, WrLock);
  }

  // Thread 1 takes a read lock.
  lemma ReaderEnters(s: State) returns (s': State)
    requires Snap(s, ASKED, RESET, 0, false, Idle, Claims(PhaseCas(FREE)), Idle)
    ensures Snap(s', ASKED.(count := 1), RESET, 1, false, Idle, Claims(PhaseCas(FREE)), Idle)
  {
    Goes(s, 1, RdLock);
    var s1 := Next(s, 1, RdLock);
    Goes(s1, 1, RdLock);
    var s2 := Next(s1, 1, RdLock);
    assert Snap(s2, ASKED, RESET, 0, false, Asks(ReadAdd), Claims(PhaseCas(FREE)), Idle);
    Goes(s2, 1, RdLock);
    s' := Next(s2, 1, RdLock);
  }

  // As the last reader out it starts the write phase, and stops before announcing it.
  lemma ReaderLeaves(s: State) returns (s': State)
    requires Snap(s, ASKED.(count := 1), RESET, 1, false, Idle, Claims(PhaseCas(FREE)), Idle)
    ensures Snap(s', TAKEN, RESET, 0, false, Leaves(ReadHandOver), Claims(PhaseCas(FREE)), Idle)
  {
    Goes(s, 1, Unlock);
    var s1 := Next(s, 1, Unlock);
    Goes(s1, 1, Unlock);
    var s2 := Next(s1, 1, Unlock);
    assert Snap(s2, ASKED.(count := 1), RESET, 1, false, Leaves(ReadRelease), Claims(PhaseCas(FREE)), Idle);
    Goes(s2, 1, Unlock);
    s' := Next(s2, 1, Unlock);
  }

  // Thread 2 sees no reader, announces the phase itself and has the lock.
  lemma WriterEnters(s: State) returns (s': State)
    requires Snap(s, TAKEN, RESET, 0, false, Leaves(ReadHandOver), Claims(PhaseCas(FREE)), Idle)
    ensures Snap(s', TAKEN, RAISED, 0, true, Leaves(ReadHandOver), Idle, Idle)
  {
    Goes(s, 2, WrLock);
    var s1 := Next(s, 2, WrLock);
    assert Snap(s1, TAKEN, RESET, 0, false, Leaves(ReadHandOver), Claims(PhaseCas(TAKEN)), Idle);
    Goes(s1, 2, WrLock);
    var s2 := Next(s1, 2, WrLock);
    assert Snap(s2, TAKEN, RESET, 0, false, Leaves(ReadHandOver), Owns(StorePhase(true)), Idle);
    Goes(s2, 2, WrLock);
    var s3 := Next(s2, 2, WrLock);
    assert Snap(s3, TAKEN, RAISED, 0, false, Leaves(ReadHandOver), Owns(StoreWriter), Idle);
    Goes(s3, 2, WrLock);
    s' := Next(s3, 2, WrLock);
  }

  // Thread 3 is counted and waits for the write phase to end.
  lemma ReaderWaits(s: State) returns (s': State)
    requires Snap(s, TAKEN, RAISED, 0, true, Leaves(ReadHandOver), Idle, Idle)
    ensures Snap(s', TAKEN.(count := 1), RAISED, 0, true, Leaves(ReadHandOver), Idle, Waits(ReadAwait))
  {
    Goes(s, 3, RdLock);
    var s1 := Next(s, 3, RdLock);
    Goes(s1, 3, RdLock);
    var s2 := Next(s1, 3, RdLock);
    assert Snap(s2, TAKEN, RAISED, 0, true, Leaves(ReadHandOver), Idle, Asks(ReadAdd));
    Goes(s2, 3, RdLock);
    var s3 := Next(s2, 3, RdLock);
    assert Snap(s3, TAKEN.(count := 1), RAISED, 0, true, Leaves(ReadHandOver), Idle, Waits(ReadStart));
    Goes(s3, 3, RdLock);
    s' := Next(s3, 3, RdLock);
  }

  // Thread 2 unlocks: it ends the write phase and announces that.
  lemma WriterLeaves(s: State) returns (s': State)
    requires Snap(s, TAKEN.(count := 1), RAISED, 0, true, Leaves(ReadHandOver), Idle, Waits(ReadAwait))
    ensures Snap(s', FREE.(count := 1), RESET, 0, false, Leaves(ReadHandOver), Idle, Waits(ReadAwait))
  {
    Goes(s, 2, Unlock);
    var s1 := Next(s, 2, Unlock);
    Goes(s1, 2, Unlock);
    var s2 := Next(s1, 2, Unlock);
    Goes(s2, 2, Unlock);
    var s3 := Next(s2, 2, Unlock);
    assert Snap(s3, TAKEN.(count := 1), RAISED, 0, false, Leaves(ReadHandOver), Owns(Close), Waits(ReadAwait));
    s' := WriterReleases(s3);
  }

  lemma WriterReleases(s: State) returns (s': State)
    requires Snap(s, TAKEN.(count := 1), RAISED, 0, false, Leaves(ReadHandOver), Owns(Close), Waits(ReadAwait))
    ensures Snap(s', FREE.(count := 1), RESET, 0, false, Leaves(ReadHandOver), Idle, Waits(ReadAwait))
  {
    Goes(s, 2, Unlock);
    var s1 := Next(s, 2, Unlock);
    assert Snap(s1, TAKEN.(count := 1), RAISED, 0, false, Leaves(ReadHandOver), Owns(Release), Waits(ReadAwait));
    Goes(s1, 2, Unlock);
    var s2 := Next(s1, 2, Unlock);
    assert Snap(s2, FREE.(count := 1), RAISED, 0, false, Leaves(ReadHandOver), Leaves(PhaseReset), Waits(ReadAwait));
    Goes(s2, 2, Unlock);
    s' := Next(s2, 2, Unlock);
  }

  lemma LateStore() returns (s: State)
    ensures Snap(s, FREE.(count := 1), RAISED, 0, false, Idle, Idle, Waits(ReadAwait))
  {
    s := Begins();
    s := WriterClaims(s);
    s := ReaderEnters(s);
    s := ReaderLeaves(s);
    s := WriterEnters(s);
    s := ReaderWaits(s);
    s := WriterLeaves(s);
    Goes(s, 1, Unlock);
    s := Next(s, 1, Unlock);
  }

  // Nobody is inside a call but thread `t`, and nobody holds a lock.
  ghost predicate Deserted(s: State, t: nat) {
    forall u :: u in s.locals ==> s.locals[u].holds == 0 && !s.locals[u].writing && (u != t ==> s.locals[u].pc.Idle?)
  }

  lemma WaitsForGood(s: State, t: nat)
    requires Reachable(s) && t in s.locals && Deserted(s, t) && Stuck(s, s.locals[t])
    ensures forall n: nat :: !Returns(s, t, n)
  {
    var moves :| Run(Start(PreferReader, {1, 2, 3}), moves) == s;
    assert Threads({1, 2, 3});
    StartOk(PreferReader, {1, 2, 3});
    RunKeeps(Start(PreferReader, {1, 2, 3}), moves);
    assert Alone(s, t);
    forall n: nat ensures !Returns(s, t, n) { NeverFinishes(s, t, n); }
  }

  // A writer that finds the write phase started by the last reader does not wait for that reader's
  // announcement. If it has come and gone before the announcement is made, the futex word is left
  // saying that a write phase runs: a reader that waits for a read phase, in a lock nobody holds or
  // asks for, never comes back.
  lemma LateAnnouncement() returns (moves: seq<Move>)
    ensures var s := Run(Start(PreferReader, {1, 2, 3}), moves);
            && s.locals.Keys == {1, 2, 3} && Deserted(s, 3) && s.locals[3].pc == Waits(ReadAwait)
            && !s.readers.writePhase && !s.readers.writerLocked && forall n: nat :: !Returns(s, 3, n)
  {
    var s := LateStore();
    WaitsForGood(s, 3);
    moves :| Run(Start(PreferReader, {1, 2, 3}), moves) == s;
  }

  // ---------------------------------------------------------------- a refused reader leaves last

  function Held(n: nat): Readers { Readers(false, false, false, n) }

  lemma OneMoreRead(s: State, n: nat) returns (s': State)
    requires n + 1 < MAX_READERS && Snap(s, Held(n), RESET, n, false, Idle, Idle, Idle)
    ensures Snap(s', Held(n + 1), RESET, n + 1, false, Idle, Idle, Idle)
  {
    Goes(s, 1, RdLock);
    var s1 := Next(s, 1, RdLock);
    Goes(s1, 1, RdLock);
    var s2 := Next(s1, 1, RdLock);
    assert Snap(s2, Held(n), RESET, n, false, Asks(ReadAdd), Idle, Idle);
    Goes(s2, 1, RdLock);
    s' := Next(s2, 1, RdLock);
  }

  lemma {:induction false} ManyReads(n: nat) returns (s: State)
    requires n < MAX_READERS
    ensures Snap(s, Held(n), RESET, n, false, Idle, Idle, Idle)
  {
    if n == 0 {
      s := Begins();
    } else {
      s := ManyReads(n - 1);
      s := OneMoreRead(s, n - 1);
    }
  }

  // Thread 3 is one reader too many; it is counted until it takes itself off again.
  lemma ReaderRefused(s: State) returns (s': State)
    requires Snap(s, Held(MAX_READERS - 1), RESET, MAX_READERS - 1, false, Idle, Idle, Idle)
    ensures Snap(s', Held(MAX_READERS), RESET, MAX_READERS - 1, false, Idle, Idle, Waits(ReadUndo))
  {
    Goes(s, 3, RdLock);
    var s1 := Next(s, 3, RdLock);
    Goes(s1, 3, RdLock);
    var s2 := Next(s1, 3, RdLock);
    assert Snap(s2, Held(MAX_READERS - 1), RESET, MAX_READERS - 1, false, Idle, Idle, Asks(ReadAdd));
    Goes(s2, 3, RdLock);
    s' := Next(s2, 3, RdLock);
  }

  function Wanted(n: nat): Readers { Readers(false, true, false, n) }

  // Thread 2 claims the right to write, and waits for the readers to leave.
  lemma WriterWaits(s: State) returns (s': State)
    requires Snap(s, Held(MAX_READERS), RESET, MAX_READERS - 1, false, Idle, Idle, Waits(ReadUndo))
    ensures Snap(s', Wanted(MAX_READERS), RESET, MAX_READERS - 1, false, Idle, Claims(WriteAwait), Waits(ReadUndo))
  {
    Goes(s, 2, WrLock);
    var s1 := Next(s, 2, WrLock);
    Goes(s1, 2, WrLock);
    var s2 := Next(s1, 2, WrLock);
    assert Snap(s2, Held(MAX_READERS), RESET, MAX_READERS - 1, false, Idle, Asks(WriteClaim), Waits(ReadUndo));
    Goes(s2, 2, WrLock);
    var s3 := Next(s2, 2, WrLock);
    assert Snap(s3, Wanted(MAX_READERS), RESET, MAX_READERS - 1, false, Idle, Claims(Publish(Held(MAX_READERS), false)), Waits(ReadUndo));
    Goes(s3, 2, WrLock);
    s' := Next(s3, 2, WrLock);
  }

  lemma OneReadLess(s: State, n: nat) returns (s': State)
    requires 0 < n && Snap(s, Wanted(n + 1), RESET, n, false, Idle, Claims(WriteAwait), Waits(ReadUndo))
    ensures Snap(s', Wanted(n), RESET, n - 1, false, Idle, Claims(WriteAwait), Waits(ReadUndo))
  {
    Goes(s, 1, Unlock);
    var s1 := Next(s, 1, Unlock);
    Goes(s1, 1, Unlock);
    var s2 := Next(s1, 1, Unlock);
    assert Snap(s2, Wanted(n + 1), RESET, n, false, Leaves(ReadRelease), Claims(WriteAwait), Waits(ReadUndo));
    Goes(s2, 1, Unlock);
    s' := Next(s2, 1, Unlock);
  }

  lemma {:induction false} AllReadsLess(s: State, n: nat) returns (s': State)
    requires Snap(s, Wanted(n + 1), RESET, n, false, Idle, Claims(WriteAwait), Waits(ReadUndo))
    ensures Snap(s', Wanted(1), RESET, 0, false, Idle, Claims(WriteAwait), Waits(ReadUndo))
    decreases n
  {
    s' := s;
    if n > 0 {
      s' := OneReadLess(s, n);
      s' := AllReadsLess(s', n - 1);
    }
  }

  // A reader that was counted as one too many takes itself off without a look at what it leaves. If
  // the readers before it have all left, a writer that waited for them is never let in, in a lock
  // nobody holds.
  lemma RefusedReaderLast() returns (moves: seq<Move>)
    ensures var s := Run(Start(PreferReader, {1, 2, 3}), moves);
            && s.locals.Keys == {1, 2, 3} && Deserted(s, 2) && s.locals[2].pc == Claims(WriteAwait)
            && s.locals[3].result == Again && s.readers.count == 0 && forall n: nat :: !Returns(s, 2, n)
  {
    var s := ManyReads(MAX_READERS - 1);
    s := ReaderRefused(s);
    s := WriterWaits(s);
    s := AllReadsLess(s, MAX_READERS - 1);
    Goes(s, 3, RdLock);
    s := Next(s, 3, RdLock);
    assert Snap(s, Wanted(0), RESET, 0, false, Idle, Claims(WriteAwait), Idle);
    WaitsForGood(s, 2);
    moves :| Run(Start(PreferReader, {1, 2, 3}), moves) == s;
  }
}
