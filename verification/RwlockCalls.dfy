/** What each call on the reader-writer lock returns and does to its caller, in any interleaving. */
module RwlockCalls {
  import opened Arithmetic
  import opened Tally
  import opened Rwlock

  // ---------------------------------------------------------------- one call from start to return

  // What a finished call did: `before` is the caller when it made the call, `after` on return.
  predicate Answered(before: Local, call: Call, after: Local) {
    match call
    case RdLock =>
      && (after.result == Deadlock <==> before.writing) && after.result != Busy
      && after.writing == before.writing && after.holds == before.holds + if after.result == Ok then 1 else 0
    case TryRdLock =>
      && (before.writing ==> after.result != Ok) && after.result != Deadlock
      && after.writing == before.writing && after.holds == before.holds + if after.result == Ok then 1 else 0
    case WrLock =>
      && after.result == (if before.writing then Deadlock else Ok)
      && after.writing && after.holds == before.holds
    case TryWrLock =>
      && (after.result == Ok || after.result == Busy) && (before.writing || before.holds > 0 ==> after.result == Busy)
      && after.writing == (before.writing || after.result == Ok) && after.holds == before.holds
    case Unlock =>
      && after.result == Ok && !after.writing
      && after.holds == if before.writing then before.holds else before.holds - 1
  }

  // The program points of each call.
  predicate At(call: Call, pc: Pc) {
    match pc
    case Idle => false
    case Asks(ask) =>
      (match ask
       case ReadCheck | ReadDeferLoad | ReadDefer(_) | ReadDeferWait | ReadAdd => call == RdLock
       case TryReadLoad | TryReadCas(_) => call == TryRdLock
       case WriteCheck | WriteClaim | WriteRegister(_) => call == WrLock
       case TryWriteClaim => call == TryWrLock)
    case Waits(_) => call == RdLock
    case Enters(enter) => call == RdLock || (call == TryRdLock && enter.ReadReset?)
    case Queues(_, _) | Claims(_) => call == WrLock
    case Owns(own) =>
      (match own
       case TokenReload(_) | WriteSettle | WriteSettleMark(_) => call == WrLock
       case TryPublish(_) => call == TryWrLock
       case StorePhase(already) => call == WrLock || (call == TryWrLock && already)
       case StoreWriter => call == WrLock || call == TryWrLock
       case Close | HandLoad | HandCas(_) | Release => call == Unlock)
    case Leaves(_) => call == Unlock
  }

  // A caller that is not the writer's own thread at the owner test has passed it.
  predicate Passed(pc: Pc) { !(pc.Asks? && (pc.ask.ReadCheck? || pc.ask.WriteCheck? || pc.ask.TryReadLoad? || pc.ask.TryReadCas? || pc.ask.TryWriteClaim?)) }

  // The caller in the middle of a call.
  predicate During(before: Local, call: Call, l: Local) {
    && l.call == call && At(call, l.pc)
    && (call != Unlock ==> l.holds == before.holds && l.writing == before.writing && (Passed(l.pc) ==> !before.writing))
    && (call == TryWrLock && l.pc.Owns? ==> before.holds == 0)
    && (call == TryRdLock && l.pc.Asks? && l.pc.ask.TryReadCas? && before.writing ==>
          l.pc.ask.seen.writerLocked && l.pc.ask.seen.writePhase)
    && (call == Unlock ==>
          if l.pc == Leaves(UnlockCheck) then l.holds == before.holds && l.writing == before.writing && (before.writing || before.holds > 0)
          else if l.pc == Leaves(ReadRelease) then l.holds == before.holds > 0 && !l.writing && !before.writing
          else if l.pc == Leaves(WriteClear) then l.holds == before.holds && before.writing
          else if l.pc == Leaves(ReadHandOver) then l.holds == before.holds - 1 && !l.writing && !before.writing
          else l.holds == before.holds && !l.writing && before.writing)
  }

  predicate Continues(before: Local, call: Call, l: Local) {
    if l.pc.Idle? then l.call == call && Answered(before, call, l) else During(before, call, l)
  }

  lemma BeginDuring(s: State, t: nat, call: Call)
    requires t in s.locals && s.locals[t].pc.Idle? && (call == Unlock ==> s.locals[t].holds > 0 || s.locals[t].writing)
    ensures t in Begin(s, t, call).locals && During(s.locals[t], call, Begin(s, t, call).locals[t])
  {}

  // What the words say of the thread's own locks.
  predicate OwnWords(s: State, t: nat)
    requires t in s.locals
  {
    var l := s.locals[t];
    && (l.writing <==> s.currentWriter == t)
    && (l.writing ==> s.readers.writePhase && s.readers.writerLocked)
    && (l.holds > 0 ==> !s.readers.writePhase && s.readers.count > 0)
  }

  lemma OwnWordsHold(s: State, t: nat)
    requires Inv(s) && t in s.locals
    ensures OwnWords(s, t)
  {
    WordsHold(s, t);
  }

  lemma CheckDuring(s: State, t: nat, before: Local, call: Call, flaky: bool)
    requires t in s.locals && During(before, call, s.locals[t]) && s.locals[t].pc.Asks?
    requires var ask := s.locals[t].pc.ask; ask.ReadCheck? || ask.WriteCheck?
    requires OwnWords(s, t)
    ensures var s' := StepAsk(s, t, s.locals[t].pc.ask, flaky);
            t in s'.locals && Continues(before, call, s'.locals[t])
  {}

  lemma DeferDuring(s: State, t: nat, before: Local, call: Call, flaky: bool)
    requires t in s.locals && During(before, call, s.locals[t]) && s.locals[t].pc.Asks?
    requires var ask := s.locals[t].pc.ask; ask.ReadDeferLoad? || ask.ReadDefer? || ask.ReadDeferWait?
    ensures var s' := StepAsk(s, t, s.locals[t].pc.ask, flaky);
            t in s'.locals && Continues(before, call, s'.locals[t])
  {}

  lemma AddDuring(s: State, t: nat, before: Local, call: Call, flaky: bool)
    requires t in s.locals && During(before, call, s.locals[t]) && s.locals[t].pc.Asks? && s.locals[t].pc.ask.ReadAdd?
    ensures var s' := StepAsk(s, t, s.locals[t].pc.ask, flaky);
            t in s'.locals && Continues(before, call, s'.locals[t])
  {}

  lemma TryReadDuring(s: State, t: nat, before: Local, call: Call, flaky: bool)
    requires t in s.locals && During(before, call, s.locals[t]) && s.locals[t].pc.Asks?
    requires var ask := s.locals[t].pc.ask; ask.TryReadLoad? || ask.TryReadCas?
    requires OwnWords(s, t)
    ensures var s' := StepAsk(s, t, s.locals[t].pc.ask, flaky);
            t in s'.locals && Continues(before, call, s'.locals[t])
  {}

  lemma WriteDuring(s: State, t: nat, before: Local, call: Call, flaky: bool)
    requires t in s.locals && During(before, call, s.locals[t]) && s.locals[t].pc.Asks?
    requires var ask := s.locals[t].pc.ask; ask.WriteClaim? || ask.WriteRegister? || ask.TryWriteClaim?
    requires OwnWords(s, t)
    ensures var s' := StepAsk(s, t, s.locals[t].pc.ask, flaky);
            t in s'.locals && Continues(before, call, s'.locals[t])
  {}

  lemma AskDuring(s: State, t: nat, before: Local, call: Call, flaky: bool)
    requires t in s.locals && During(before, call, s.locals[t]) && s.locals[t].pc.Asks?
    requires OwnWords(s, t)
    ensures var s' := StepAsk(s, t, s.locals[t].pc.ask, flaky);
            t in s'.locals && Continues(before, call, s'.locals[t])
  {
    match s.locals[t].pc.ask
    case ReadCheck | WriteCheck => CheckDuring(s, t, before, call, flaky);
    case ReadDeferLoad | ReadDefer(_) | ReadDeferWait => DeferDuring(s, t, before, call, flaky);
    case ReadAdd => AddDuring(s, t, before, call, flaky);
    case TryReadLoad | TryReadCas(_) => TryReadDuring(s, t, before, call, flaky);
    case WriteClaim | WriteRegister(_) | TryWriteClaim => WriteDuring(s, t, before, call, flaky);
  }

  lemma WaitDuring(s: State, t: nat, before: Local, call: Call, flaky: bool)
    requires t in s.locals && During(before, call, s.locals[t]) && s.locals[t].pc.Waits?
    ensures var s' := StepWait(s, t, s.locals[t].pc.wait, flaky);
            t in s'.locals && Continues(before, call, s'.locals[t])
  {}

  lemma EnterDuring(s: State, t: nat, before: Local, call: Call, flaky: bool)
    requires t in s.locals && During(before, call, s.locals[t]) && s.locals[t].pc.Enters?
    ensures var s' := StepEnter(s, t, s.locals[t].pc.enter, flaky);
            t in s'.locals && Continues(before, call, s'.locals[t])
  {}

  lemma QueueDuring(s: State, t: nat, before: Local, call: Call, flaky: bool)
    requires t in s.locals && During(before, call, s.locals[t]) && s.locals[t].pc.Queues?
    ensures var s' := StepQueue(s, t, s.locals[t].pc.queue, s.locals[t].pc.shared, flaky);
            t in s'.locals && Continues(before, call, s'.locals[t])
  {}

  lemma ClaimDuring(s: State, t: nat, before: Local, call: Call, flaky: bool)
    requires t in s.locals && During(before, call, s.locals[t]) && s.locals[t].pc.Claims?
    ensures var s' := StepClaim(s, t, s.locals[t].pc.claim, flaky);
            t in s'.locals && Continues(before, call, s'.locals[t])
  {}

  lemma GainDuring(s: State, t: nat, before: Local, call: Call, flaky: bool)
    requires t in s.locals && During(before, call, s.locals[t]) && s.locals[t].pc.Owns?
    requires var own := s.locals[t].pc.own; !own.Close? && !own.HandLoad? && !own.HandCas? && !own.Release?
    ensures var s' := StepOwn(s, t, s.locals[t].pc.own, flaky);
            t in s'.locals && Continues(before, call, s'.locals[t])
  {}

  lemma CloseDuring(s: State, t: nat, before: Local, call: Call, flaky: bool)
    requires t in s.locals && During(before, call, s.locals[t]) && s.locals[t].pc.Owns?
    requires var own := s.locals[t].pc.own; own.Close? || own.HandLoad? || own.HandCas? || own.Release?
    ensures var s' := StepOwn(s, t, s.locals[t].pc.own, flaky);
            t in s'.locals && Continues(before, call, s'.locals[t])
  {}

  lemma LeaveDuring(s: State, t: nat, before: Local, call: Call, flaky: bool)
    requires t in s.locals && During(before, call, s.locals[t]) && s.locals[t].pc.Leaves?
    requires OwnWords(s, t)
    ensures var s' := StepLeave(s, t, s.locals[t].pc.leave);
            t in s'.locals && Continues(before, call, s'.locals[t])
  {}

  lemma StepDuring(s: State, m: Move, before: Local, call: Call)
    requires Inv(s) && m.tid in s.locals && During(before, call, s.locals[m.tid])
    ensures m.tid in Step(s, m).locals && Continues(before, call, Step(s, m).locals[m.tid])
  {
    OwnWordsHold(s, m.tid);
    match s.locals[m.tid].pc
    case Idle =>
    case Asks(_) => AskDuring(s, m.tid, before, call, m.flaky);
    case Waits(_) => WaitDuring(s, m.tid, before, call, m.flaky);
    case Enters(_) => EnterDuring(s, m.tid, before, call, m.flaky);
    case Queues(_, _) => QueueDuring(s, m.tid, before, call, m.flaky);
    case Claims(_) => ClaimDuring(s, m.tid, before, call, m.flaky);
    case Owns(own) =>
      if own.Close? || own.HandLoad? || own.HandCas? || own.Release? { CloseDuring(s, m.tid, before, call, m.flaky); }
      else { GainDuring(s, m.tid, before, call, m.flaky); }
    case Leaves(_) => LeaveDuring(s, m.tid, before, call, m.flaky);
  }

  lemma OtherStep(s: State, m: Move, t: nat)
    requires Inv(s) && t in s.locals && t != m.tid
    ensures t in Step(s, m).locals && Step(s, m).locals[t] == s.locals[t]
  {
    if m.tid in s.locals { StepChange(s, m); }
  }

  // Thread `t` is inside a call in every state on the way.
  predicate Busies(s: State, moves: seq<Move>, t: nat) {
    forall i :: 0 <= i < |moves| ==> t in Run(s, moves[..i]).locals && !Run(s, moves[..i]).locals[t].pc.Idle?
  }

  lemma {:induction false} CallContinues(s: State, moves: seq<Move>, t: nat, before: Local, call: Call)
    requires Inv(s) && t in s.locals && During(before, call, s.locals[t]) && Busies(s, moves, t)
    ensures t in Run(s, moves).locals && Continues(before, call, Run(s, moves).locals[t])
    decreases |moves|
  {
    if moves != [] {
      var front, m := moves[..|moves| - 1], moves[|moves| - 1];
      forall i | 0 <= i < |front| ensures t in Run(s, front[..i]).locals && !Run(s, front[..i]).locals[t].pc.Idle? {
        assert front[..i] == moves[..i];
      }
      CallContinues(s, front, t, before, call);
      RunKeeps(s, front);
      assert moves[..|front|] == front;
      if m.tid == t { StepDuring(Run(s, front), m, before, call); } else { OtherStep(Run(s, front), m, t); }
    }
  }

  // Any call of any thread in any run: `made` starts it in the state after `moves`, `more` is what
  // all threads do until it returns. A lock call returns zero exactly when it got its lock; the
  // blocking ones are refused as a deadlock exactly when the caller holds the write lock; an unlock
  // gives up the write lock, or one read lock of a caller that does not have it.
  lemma CallAnswered(kind: Kind, threads: set<nat>, moves: seq<Move>, made: Move, more: seq<Move>)
    requires Threads(threads)
    requires var s := Run(Start(kind, threads), moves);
             && made.tid in s.locals && s.locals[made.tid].pc.Idle?
             && (made.call == Unlock ==> s.locals[made.tid].holds > 0 || s.locals[made.tid].writing)
             && Busies(Step(s, made), more, made.tid)
             && made.tid in Run(Step(s, made), more).locals && Run(Step(s, made), more).locals[made.tid].pc.Idle?
    ensures var s := Run(Start(kind, threads), moves);
            Answered(s.locals[made.tid], made.call, Run(Step(s, made), more).locals[made.tid])
  {
    StartOk(kind, threads);
    RunKeeps(Start(kind, threads), moves);
    var s := Run(Start(kind, threads), moves);
    StepKeeps(s, made);
    BeginDuring(s, made.tid, made.call);
    CallContinues(Step(s, made), more, made.tid, s.locals[made.tid], made.call);
  }

  // ---------------------------------------------------------------- when a call is refused

  // Somebody owns the right to write: a primary writer, or a waiting one the token is left for.
  ghost predicate RightTaken(s: State) { s.writers.handover || exists u :: u in s.locals && Primary(s.locals[u]) }

  lemma ClaimedIsLocked(s: State)
    requires Inv(s)
    ensures RightTaken(s) <==> s.readers.writerLocked
  {
    if s.readers.writerLocked && !s.writers.handover {
      Witness(s.locals, PrimaryWeight);
      var u :| u in s.locals && PrimaryWeight(s.locals[u]) > 0;
      assert Primary(s.locals[u]);
    }
    if u :| u in s.locals && Primary(s.locals[u]) {
      assert LocalOk(s, u, s.locals[u]);
    }
  }

  // What the sums over the threads say of the words, and the owner field of a thread.
  lemma WordsMean(kind: Kind, threads: set<nat>, moves: seq<Move>)
    requires Threads(threads)
    ensures var s := Run(Start(kind, threads), moves);
            && s.kind == kind && s.readers.count == Sum(s.locals, Share) && (RightTaken(s) <==> s.readers.writerLocked)
            && forall t :: t in s.locals ==> OwnWords(s, t)
  {
    StartOk(kind, threads);
    RunKeeps(Start(kind, threads), moves);
    RunThreads(Start(kind, threads), moves);
    var s := Run(Start(kind, threads), moves);
    ClaimedIsLocked(s);
    forall t | t in s.locals ensures OwnWords(s, t) { OwnWordsHold(s, t); }
  }

  // `trywrlock` is refused at once, without touching the words, exactly when somebody owns the
  // right to write, or readers are counted and it is not a running write phase that this kind of
  // lock lets writers continue; otherwise it owns the write phase.
  lemma TryWriteRefused(kind: Kind, threads: set<nat>, moves: seq<Move>, t: nat)
    requires Threads(threads)
    requires var s := Run(Start(kind, threads), moves); t in s.locals && s.locals[t].pc == Asks(TryWriteClaim)
    ensures var s := Run(Start(kind, threads), moves);
            var s' := StepAsk(s, t, TryWriteClaim, false);
            if RightTaken(s) || (Sum(s.locals, Share) > 0 && !(kind != PreferReader && s.readers.writePhase))
            then s' == s.Set(t, Returned(s.locals[t], Busy))
            else s'.readers.writerLocked && s'.readers.writePhase && s'.locals[t].pc == Owns(TryPublish(s.readers.writePhase))
  {
    WordsMean(kind, threads, moves);
  }

  lemma TryReadAnswer(s: State, later: State, t: nat, flaky: bool)
    requires t in s.locals && t in later.locals && later.kind == s.kind && later.locals[t].pc == Asks(TryReadCas(s.readers))
    ensures var l, s' := later.locals[t], StepAsk(later, t, TryReadCas(s.readers), flaky);
            && t in s'.locals
            && (s'.locals[t] == Returned(l, Again) <==> s.readers.count >= 0x1000_0000)
            && (s'.locals[t] == Returned(l, Busy) <==>
                  s.readers.count < 0x1000_0000 && s.readers.writerLocked && (s.readers.writePhase || s.kind == PreferWriterNonrecursive))
  {}

  // `tryrdlock` answers by the words as it last loaded them, in `s`, whatever happened until
  // `later`: refused as busy exactly when somebody owned the right to write and either a write phase
  // was running or this kind of lock does not let readers pass a waiting writer; as one too many
  // exactly from 2^28 readers on.
  lemma TryReadRefused(kind: Kind, threads: set<nat>, moves: seq<Move>, later: State, t: nat, flaky: bool)
    requires Threads(threads)
    requires var s := Run(Start(kind, threads), moves);
             && t in s.locals && s.locals[t].pc == Asks(TryReadLoad)
             && t in later.locals && later.kind == kind && later.locals[t] == StepAsk(s, t, TryReadLoad, flaky).locals[t]
    ensures var s := Run(Start(kind, threads), moves);
            var l, s' := later.locals[t], StepAsk(later, t, TryReadCas(s.readers), flaky);
            && l.pc == Asks(TryReadCas(s.readers)) && t in s'.locals
            && (s'.locals[t] == Returned(l, Again) <==> Sum(s.locals, Share) >= 0x1000_0000)
            && (s'.locals[t] == Returned(l, Busy) <==>
                  Sum(s.locals, Share) < 0x1000_0000 && RightTaken(s) && (s.readers.writePhase || kind == PreferWriterNonrecursive))
  {
    WordsMean(kind, threads, moves);
    TryReadAnswer(Run(Start(kind, threads), moves), later, t, flaky);
  }

  lemma OwnerAnswer(s: State, t: nat, ask: Asking, flaky: bool)
    requires t in s.locals && OwnWords(s, t) && (ask.ReadCheck? || ask.WriteCheck?)
    ensures var l, s' := s.locals[t], StepAsk(s, t, ask, flaky);
            t in s'.locals && if l.writing then s' == s.Set(t, Returned(l, Deadlock)) else s'.locals[t].pc.Asks?
  {}

  lemma AddAnswer(s: State, t: nat, flaky: bool)
    requires t in s.locals && s.readers.count + 1 < MAX_COUNT
    ensures var s' := StepAsk(s, t, ReadAdd, flaky);
            t in s'.locals && (s'.locals[t].pc == Waits(ReadUndo) <==> s.readers.count + 1 >= 0x1000_0000)
  {}

  // The owner test of the blocking calls refuses exactly the thread that holds the write lock, and
  // a reader is one too many exactly when 2^28 are counted with it.
  lemma BlockingRefused(kind: Kind, threads: set<nat>, moves: seq<Move>, t: nat, flaky: bool)
    requires Threads(threads)
    requires var s := Run(Start(kind, threads), moves); t in s.locals && s.locals[t].pc.Asks?
    ensures var s := Run(Start(kind, threads), moves);
            var l, s' := s.locals[t], StepAsk(s, t, s.locals[t].pc.ask, flaky);
            && t in s'.locals
            && (l.pc.ask.ReadCheck? || l.pc.ask.WriteCheck? ==>
                  if l.writing then s' == s.Set(t, Returned(l, Deadlock)) else s'.locals[t].pc.Asks?)
            && (l.pc.ask.ReadAdd? ==> (s'.locals[t].pc == Waits(ReadUndo) <==> Sum(s.locals, Share) + 1 >= 0x1000_0000))
  {
    var s := Run(Start(kind, threads), moves);
    WordsMean(kind, threads, moves);
    match s.locals[t].pc.ask
    case ReadCheck | WriteCheck => OwnerAnswer(s, t, s.locals[t].pc.ask, flaky);
    case ReadAdd => RoomToAdd(kind, threads, moves, t); AddAnswer(s, t, flaky);
    case _ =>
  }

  lemma RoomToAdd(kind: Kind, threads: set<nat>, moves: seq<Move>, t: nat)
    requires Threads(threads)
    requires var s := Run(Start(kind, threads), moves); t in s.locals && s.locals[t].pc == Asks(ReadAdd)
    ensures Run(Start(kind, threads), moves).readers.count + 1 < MAX_COUNT
  {
    StartOk(kind, threads);
    RunKeeps(Start(kind, threads), moves);
    WordsHold(Run(Start(kind, threads), moves), t);
  }
}
