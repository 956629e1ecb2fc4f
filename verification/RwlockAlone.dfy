/** When a call on the reader-writer lock returns: a thread that runs alone, from any program point
    of any call, finishes within twenty steps unless the words keep it waiting for good. */
module RwlockAlone {
  import opened Arithmetic
  import opened Tally
  import opened Rwlock
  import opened RwlockCalls

  // A writer on its way to the write phase, which it shares with nobody.
  predicate Writer(pc: Pc) {
    pc.Queues? || pc.Claims? || (pc.Asks? && (pc.ask.WriteCheck? || pc.ask.WriteClaim? || pc.ask.WriteRegister?))
    || (pc.Owns? && (pc.own.TokenReload? || pc.own == StorePhase(false)))
  }

  // Every other thread is outside, and does not hold what thread `t` is asking for.
  ghost predicate Alone(s: State, t: nat) {
    && Inv(s) && t in s.locals && (Writer(s.locals[t].pc) ==> s.locals[t].holds == 0)
    && forall u :: u in s.locals && u != t ==> Outside(s.locals[u], Writer(s.locals[t].pc))
  }

  predicate Outside(l: Local, strict: bool) { l.pc.Idle? && !l.writing && (strict ==> l.holds == 0) }

  // What that says of the words.
  predicate Words(s: State, t: nat, l: Local) {
    && LocalOk(s, t, l) && WordsOk(s)
    && (Primary(l) <==> s.readers.writerLocked && !s.writers.handover)
    && (s.writers.handover ==> l.pc.Queues? && s.PreferWriter())
    && (Registered(l) == 0 ==> s.writers == Writers(0, false))
    && (Writer(l.pc) ==> s.readers.count == 0)
    && s.readers.count >= Share(l) && (Undoing(l) == 0 ==> s.readers.count + 1 < MAX_COUNT)
  }

  lemma AloneWords(s: State, t: nat)
    requires Alone(s, t)
    ensures Words(s, t, s.locals[t])
  {
    var l, others := s.locals[t], s.locals - {t};
    WordsHold(s, t);
    Split(s.locals, PrimaryWeight, t);
    Split(s.locals, Registered, t);
    Split(s.locals, Share, t);
    AllZero(others, PrimaryWeight);
    AllZero(others, Registered);
    if Writer(l.pc) { AllZero(others, Share); }
  }

  // ---------------------------------------------------------------- waiting for good

  // The words keep the thread from ever finishing: it waits for a phase that nobody is left to
  // start or to announce, or for a mark that nobody is left to clear.
  predicate Stuck(s: State, l: Local) {
    var open := s.phaseFutex.phase && s.readers.writePhase;
    match l.pc
    case Asks(ask) => ask.ReadDeferWait? && s.readers.readersWaiting
    case Waits(wait) =>
      if wait.ReadUndo? then false
      else if wait.ReadStart? then !s.readers.writePhase && s.phaseFutex.phase
      else s.phaseFutex.phase || s.readers.writePhase
    case Enters(enter) => !enter.ReadReset? && s.phaseFutex.phase
    case Claims(claim) =>
      (match claim
       case Deduct(seen, _) => seen.count != 0 && !seen.writePhase && !open
       case Publish(seen, _) => seen.count != 0 && !seen.writePhase && !open
       case PhaseCas(_) => false
       case _ => !open)
    case Owns(own) => (own.WriteSettle? || own.WriteSettleMark?) && !s.phaseFutex.phase
    case _ => false
  }

  // How many steps of its own are left.
  function Rank(s: State, l: Local): nat {
    match l.pc
    case Idle => 0
    case Asks(ask) =>
      (match ask
       case ReadCheck => 8
       case ReadDeferLoad | ReadDefer(_) | ReadDeferWait => 7
       case ReadAdd => 6
       case TryReadLoad => 4
       case TryReadCas(seen) => if seen == s.readers then 2 else 3
       case WriteCheck => 19
       case WriteClaim => 18
       case WriteRegister(_) => 17
       case TryWriteClaim => 7)
    case Waits(wait) =>
      (match wait
       case ReadUndo => 1
       case ReadStart => 5
       case ReadAwait => 3
       case ReadAwaitMark(_) => 4
       case ReadConfirm => 2)
    case Enters(enter) => if enter.ReadSettleMark? then 2 else 1
    case Queues(queue, _) => QueueRank(s, queue)
    case Claims(claim) =>
      (match claim
       case Deduct(_, _) => 9
       case Publish(_, _) => 8
       case PhaseCas(seen) => if seen == s.readers then 6 else 7
       case WriteAwait => 4
       case WriteAwaitMark(_) => 5
       case WriteConfirm => 3)
    case Owns(own) =>
      (match own
       case TokenReload(_) => 9
       case StorePhase(_) => 5
       case TryPublish(_) => 6
       case WriteSettle => 2
       case WriteSettleMark(_) => 3
       case StoreWriter => 1
       case Close => 5
       case HandLoad => 4
       case HandCas(_) => 3
       case Release => 2)
    case Leaves(leave) =>
      (match leave
       case UnlockCheck => 7
       case ReadRelease => 2
       case WriteClear => 6
       case ReadHandOver | PhaseReset => 1)
  }

  function QueueRank(s: State, queue: Queued): nat {
    match queue
    case Contend(seen) => if seen == s.readers then 10 else 12
    case LoadWriters(_) => if s.writers.handover then 11 else 16
    case TakeToken(_, writers) => if writers == s.writers then 10 else 17
    case Park => 15
    case Mark(_) => 14
    case Reload => 13
  }

  predicate RefusedBy(kind: Kind, r: Readers) {
    r.count >= MAX_READERS || (r.writerLocked && (r.writePhase || kind == PreferWriterNonrecursive))
  }

  // The call will come back without the lock.
  predicate Refusing(s: State, l: Local) {
    match l.pc
    case Asks(ask) =>
      (match ask
       case ReadCheck => l.writing || s.readers.count + 1 >= MAX_READERS
       case ReadDeferLoad | ReadDefer(_) | ReadDeferWait | ReadAdd => s.readers.count + 1 >= MAX_READERS
       case TryReadLoad => RefusedBy(s.kind, s.readers)
       case TryReadCas(seen) => RefusedBy(s.kind, seen) || (seen != s.readers && RefusedBy(s.kind, s.readers))
       case WriteCheck => l.writing
       case TryWriteClaim => s.readers.writerLocked || !(s.readers.count == 0 || (s.PreferWriter() && s.readers.writePhase))
       case _ => false)
    case Waits(wait) => wait.ReadUndo?
    case _ => false
  }

  // One step on, from a thread that was refused or not: closer to the end.
  predicate Nearer(s: State, t: nat, s': State) {
    && t in s.locals && t in s'.locals
    && var l, l' := s.locals[t], s'.locals[t];
       && !Stuck(s', l') && (Writer(l'.pc) ==> Writer(l.pc))
       && if l'.pc.Idle? then l'.result == Ok <==> !Refusing(s, l)
          else Rank(s', l') < Rank(s, l) && (Refusing(s', l') <==> Refusing(s, l))
  }

  lemma AskNearer(s: State, t: nat)
    requires t in s.locals && s.locals[t].pc.Asks? && Words(s, t, s.locals[t]) && !Stuck(s, s.locals[t])
    ensures Nearer(s, t, StepAsk(s, t, s.locals[t].pc.ask, false))
  {
    match s.locals[t].pc.ask
    case ReadCheck | ReadDeferLoad | ReadDefer(_) | ReadDeferWait => ReadNearer(s, t);
    case ReadAdd => AddNearer(s, t);
    case TryReadLoad | TryReadCas(_) => TryReadNearer(s, t);
    case _ => WriteNearer(s, t);
  }

  lemma ReadNearer(s: State, t: nat)
    requires t in s.locals && s.locals[t].pc.Asks? && Words(s, t, s.locals[t]) && !Stuck(s, s.locals[t])
    requires var ask := s.locals[t].pc.ask; ask.ReadCheck? || ask.ReadDeferLoad? || ask.ReadDefer? || ask.ReadDeferWait?
    ensures Nearer(s, t, StepAsk(s, t, s.locals[t].pc.ask, false))
  {}

  lemma AddNearer(s: State, t: nat)
    requires t in s.locals && s.locals[t].pc == Asks(ReadAdd) && Words(s, t, s.locals[t])
    ensures Nearer(s, t, StepAsk(s, t, ReadAdd, false))
  {}

  lemma TryReadNearer(s: State, t: nat)
    requires t in s.locals && s.locals[t].pc.Asks? && Words(s, t, s.locals[t])
    requires var ask := s.locals[t].pc.ask; ask.TryReadLoad? || ask.TryReadCas?
    ensures Nearer(s, t, StepAsk(s, t, s.locals[t].pc.ask, false))
  {}

  lemma WriteNearer(s: State, t: nat)
    requires t in s.locals && s.locals[t].pc.Asks? && Words(s, t, s.locals[t])
    requires var ask := s.locals[t].pc.ask; ask.WriteCheck? || ask.WriteClaim? || ask.WriteRegister? || ask.TryWriteClaim?
    ensures Nearer(s, t, StepAsk(s, t, s.locals[t].pc.ask, false))
  {}

  lemma WaitNearer(s: State, t: nat)
    requires t in s.locals && s.locals[t].pc.Waits? && Words(s, t, s.locals[t]) && !Stuck(s, s.locals[t])
    ensures Nearer(s, t, StepWait(s, t, s.locals[t].pc.wait, false))
  {}

  lemma EnterNearer(s: State, t: nat)
    requires t in s.locals && s.locals[t].pc.Enters? && Words(s, t, s.locals[t]) && !Stuck(s, s.locals[t])
    ensures Nearer(s, t, StepEnter(s, t, s.locals[t].pc.enter, false))
  {}

  lemma TokenNearer(s: State, t: nat)
    requires t in s.locals && s.locals[t].pc.Queues? && Words(s, t, s.locals[t])
    requires var queue := s.locals[t].pc.queue; queue.LoadWriters? || queue.TakeToken?
    ensures Nearer(s, t, StepQueue(s, t, s.locals[t].pc.queue, s.locals[t].pc.shared, false))
  {}

  lemma ContendNearer(s: State, t: nat)
    requires t in s.locals && s.locals[t].pc.Queues? && Words(s, t, s.locals[t])
    requires var queue := s.locals[t].pc.queue; queue.Contend? || queue.Reload?
    ensures Nearer(s, t, StepQueue(s, t, s.locals[t].pc.queue, s.locals[t].pc.shared, false))
  {}

  lemma ParkNearer(s: State, t: nat)
    requires t in s.locals && s.locals[t].pc.Queues? && Words(s, t, s.locals[t])
    requires var queue := s.locals[t].pc.queue; queue.Park? || queue.Mark?
    ensures Nearer(s, t, StepQueue(s, t, s.locals[t].pc.queue, s.locals[t].pc.shared, false))
  {}

  lemma ClaimNearer(s: State, t: nat)
    requires t in s.locals && s.locals[t].pc.Claims? && Words(s, t, s.locals[t]) && !Stuck(s, s.locals[t])
    requires var claim := s.locals[t].pc.claim; claim.Deduct? || claim.Publish? || claim.PhaseCas?
    ensures Nearer(s, t, StepClaim(s, t, s.locals[t].pc.claim, false))
  {}

  lemma PhaseNearer(s: State, t: nat)
    requires t in s.locals && s.locals[t].pc.Claims? && Words(s, t, s.locals[t]) && !Stuck(s, s.locals[t])
    requires var claim := s.locals[t].pc.claim; claim.WriteAwait? || claim.WriteAwaitMark? || claim.WriteConfirm?
    ensures Nearer(s, t, StepClaim(s, t, s.locals[t].pc.claim, false))
  {}

  lemma GainNearer(s: State, t: nat)
    requires t in s.locals && s.locals[t].pc.Owns? && Words(s, t, s.locals[t]) && !Stuck(s, s.locals[t])
    requires var own := s.locals[t].pc.own; !own.Close? && !own.HandLoad? && !own.HandCas? && !own.Release?
    ensures Nearer(s, t, StepOwn(s, t, s.locals[t].pc.own, false))
  {}

  lemma CloseNearer(s: State, t: nat)
    requires t in s.locals && s.locals[t].pc.Owns? && Words(s, t, s.locals[t])
    requires var own := s.locals[t].pc.own; own.Close? || own.HandLoad? || own.HandCas? || own.Release?
    ensures Nearer(s, t, StepOwn(s, t, s.locals[t].pc.own, false))
  {}

  lemma LeaveNearer(s: State, t: nat)
    requires t in s.locals && s.locals[t].pc.Leaves? && Words(s, t, s.locals[t])
    ensures Nearer(s, t, StepLeave(s, t, s.locals[t].pc.leave))
  {}

  lemma StepNearer(s: State, t: nat)
    requires t in s.locals && Words(s, t, s.locals[t]) && !Stuck(s, s.locals[t]) && !s.locals[t].pc.Idle?
    ensures Nearer(s, t, Step(s, Move(t, Unlock, false)))
  {
    match s.locals[t].pc
    case Idle =>
    case Asks(_) => AskNearer(s, t);
    case Waits(_) => WaitNearer(s, t);
    case Enters(_) => EnterNearer(s, t);
    case Queues(queue, _) =>
      if queue.LoadWriters? || queue.TakeToken? { TokenNearer(s, t); }
      else if queue.Contend? || queue.Reload? { ContendNearer(s, t); }
      else { ParkNearer(s, t); }
    case Claims(claim) =>
      if claim.Deduct? || claim.Publish? || claim.PhaseCas? { ClaimNearer(s, t); } else { PhaseNearer(s, t); }
    case Owns(own) =>
      if own.Close? || own.HandLoad? || own.HandCas? || own.Release? { CloseNearer(s, t); } else { GainNearer(s, t); }
    case Leaves(_) => LeaveNearer(s, t);
  }

  lemma AloneStep(s: State, t: nat)
    requires Alone(s, t) && t in Step(s, Move(t, Unlock, false)).locals
    requires Writer(Step(s, Move(t, Unlock, false)).locals[t].pc) ==> Writer(s.locals[t].pc)
    requires !s.locals[t].pc.Idle?
    ensures Alone(Step(s, Move(t, Unlock, false)), t)
  {
    var s' := Step(s, Move(t, Unlock, false));
    StepKeeps(s, Move(t, Unlock, false));
    StepChange(s, Move(t, Unlock, false));
    if Writer(s.locals[t].pc) { WriterHolds(s, t); }
    forall u | u in s'.locals && u != t ensures Outside(s'.locals[u], Writer(s'.locals[t].pc)) {
      assert s'.locals[u] == s.locals[u];
    }
  }

  // A step that stays with a writer's call leaves its read locks alone.
  lemma WriterHolds(s: State, t: nat)
    requires t in s.locals && Writer(s.locals[t].pc)
    ensures t in Step(s, Move(t, Unlock, false)).locals && Step(s, Move(t, Unlock, false)).locals[t].holds == s.locals[t].holds
  {}

  // Waiting for good is for good.
  lemma StuckStays(s: State, t: nat)
    requires t in s.locals && Words(s, t, s.locals[t]) && Stuck(s, s.locals[t])
    ensures var s' := Step(s, Move(t, Unlock, false)); t in s'.locals && Stuck(s', s'.locals[t])
    ensures Writer(Step(s, Move(t, Unlock, false)).locals[t].pc) ==> Writer(s.locals[t].pc)
  {
    match s.locals[t].pc
    case Claims(_) => StuckClaim(s, t);
    case Waits(_) => StuckWait(s, t);
    case _ =>
  }

  lemma StuckClaim(s: State, t: nat)
    requires t in s.locals && Words(s, t, s.locals[t]) && Stuck(s, s.locals[t]) && s.locals[t].pc.Claims?
    ensures var s' := StepClaim(s, t, s.locals[t].pc.claim, false); t in s'.locals && Stuck(s', s'.locals[t])
  {}

  lemma StuckWait(s: State, t: nat)
    requires t in s.locals && Words(s, t, s.locals[t]) && Stuck(s, s.locals[t]) && s.locals[t].pc.Waits?
    ensures var s' := StepWait(s, t, s.locals[t].pc.wait, false); t in s'.locals && Stuck(s', s'.locals[t])
  {}

  // ---------------------------------------------------------------- running alone

  // After `n` steps of its own the thread is back from its call, with the lock if `granted`.
  predicate Ends(s: State, t: nat, n: nat, before: Local, call: Call, granted: bool) {
    var s' := Solo(s, t, n);
    t in s'.locals && s'.locals[t].pc.Idle? && Answered(before, call, s'.locals[t]) && (s'.locals[t].result == Ok <==> granted)
  }

  // One step of a thread alone, with the state it leads to.
  lemma Onward(s: State, t: nat, before: Local, call: Call) returns (s': State)
    requires Alone(s, t) && !s.locals[t].pc.Idle? && !Stuck(s, s.locals[t]) && During(before, call, s.locals[t])
    ensures forall n: nat {:trigger Solo(s', t, n)} :: Solo(s, t, n + 1) == Solo(s', t, n)
    ensures Nearer(s, t, s')
    ensures if s'.locals[t].pc.Idle? then Answered(before, call, s'.locals[t])
            else Alone(s', t) && During(before, call, s'.locals[t])
  {
    s' := Step(s, Move(t, Unlock, false));
    AloneWords(s, t);
    StepNearer(s, t);
    StepDuring(s, Move(t, Unlock, false), before, call);
    AloneStep(s, t);
  }

  lemma {:induction false} Finishes(s: State, t: nat, before: Local, call: Call) returns (n: nat)
    requires Alone(s, t) && !s.locals[t].pc.Idle? && !Stuck(s, s.locals[t]) && During(before, call, s.locals[t])
    ensures n <= Rank(s, s.locals[t]) && Ends(s, t, n, before, call, !Refusing(s, s.locals[t]))
    decreases Rank(s, s.locals[t])
  {
    var s' := Onward(s, t, before, call);
    RankPositive(s, s.locals[t]);
    if s'.locals[t].pc.Idle? {
      n := 1;
      assert Solo(s, t, 0 + 1) == Solo(s', t, 0) == s';
    } else {
      n := Finishes(s', t, before, call);
      assert Solo(s, t, n + 1) == Solo(s', t, n);
      n := n + 1;
    }
  }

  lemma RankPositive(s: State, l: Local)
    requires !l.pc.Idle?
    ensures 0 < Rank(s, l) <= 19
  {}

  lemma {:induction false} NeverFinishes(s: State, t: nat, n: nat)
    requires Alone(s, t) && Stuck(s, s.locals[t])
    ensures t in Solo(s, t, n).locals && !Solo(s, t, n).locals[t].pc.Idle?
    decreases n
  {
    if n > 0 {
      AloneWords(s, t);
      StuckStays(s, t);
      AloneStep(s, t);
      NeverFinishes(Step(s, Move(t, Unlock, false)), t, n - 1);
    }
  }

  ghost predicate Returns(s: State, t: nat, n: nat) { t in Solo(s, t, n).locals && Solo(s, t, n).locals[t].pc.Idle? }

  ghost predicate EndsSoon(s: State, t: nat, before: Local, call: Call, granted: bool) {
    exists n: nat :: n <= 19 && Ends(s, t, n, before, call, granted)
  }

  // With the other threads outside and without what thread `t` asks for, a thread anywhere in its
  // call comes back within nineteen steps of its own if and only if it is not stuck, and then has
  // its lock if and only if the words do not refuse it.
  lemma AloneReturns(s: State, t: nat, before: Local, call: Call)
    requires Alone(s, t) && !s.locals[t].pc.Idle? && During(before, call, s.locals[t])
    ensures (exists n: nat :: Returns(s, t, n)) <==> !Stuck(s, s.locals[t])
    ensures !Stuck(s, s.locals[t]) ==>
      EndsSoon(s, t, before, call, !Refusing(s, s.locals[t]))
  {
    if Stuck(s, s.locals[t]) {
      forall n: nat ensures !Returns(s, t, n) { NeverFinishes(s, t, n); }
    } else {
      RankPositive(s, s.locals[t]);
      var n := Finishes(s, t, before, call);
      assert Returns(s, t, n);
    }
  }

  // ---------------------------------------------------------------- calls on a lock at rest

  // Nobody is inside a call, and nobody but perhaps thread `t` has the write lock.
  predicate AtRest(s: State, t: nat) {
    t in s.locals && forall u :: u in s.locals ==> s.locals[u].pc.Idle? && (u != t ==> !s.locals[u].writing)
  }

  // What the call is asking for is free.
  ghost predicate Grantable(s: State, t: nat, call: Call)
    requires t in s.locals
  {
    match call
    case RdLock => !s.locals[t].writing && Sum(s.locals, Share) + 1 < 0x1000_0000
    case TryRdLock => !s.locals[t].writing && Sum(s.locals, Share) < 0x1000_0000
    case WrLock => !s.locals[t].writing
    case TryWrLock => !s.locals[t].writing && forall u :: u in s.locals ==> s.locals[u].holds == 0
    case Unlock => true
  }

  lemma RestWords(s: State, t: nat)
    requires Inv(s) && AtRest(s, t)
    ensures s.readers.count == Sum(s.locals, Share) && s.writers == Writers(0, false)
    ensures s.readers.writerLocked <==> s.locals[t].writing
    ensures s.locals[t].writing ==> s.readers.writePhase
    ensures s.readers.count == 0 <==> forall u :: u in s.locals ==> s.locals[u].holds == 0
    ensures s.readers.count > 0 ==> !s.readers.writePhase
  {
    Split(s.locals, PrimaryWeight, t);
    AllZero(s.locals - {t}, PrimaryWeight);
    AllZero(s.locals, Registered);
    assert LocalOk(s, t, s.locals[t]);
    if s.readers.count == 0 {
      ZeroMeansAllZero(s.locals, Share);
      forall u | u in s.locals ensures s.locals[u].holds == 0 { assert Share(s.locals[u]) == 0; }
    } else {
      Witness(s.locals, Share);
      var u :| u in s.locals && Share(s.locals[u]) > 0;
      assert LocalOk(s, u, s.locals[u]) && s.locals[u].holds > 0;
    }
  }

  lemma RestRefusing(s: State, t: nat, call: Call)
    requires Inv(s) && AtRest(s, t) && (call == Unlock ==> s.locals[t].holds > 0 || s.locals[t].writing)
    requires call == WrLock ==> forall u :: u in s.locals ==> s.locals[u].holds == 0
    ensures var s' := Begin(s, t, call);
            && t in s'.locals && !s'.locals[t].pc.Idle? && !Stuck(s', s'.locals[t])
            && (Refusing(s', s'.locals[t]) <==> !Grantable(s, t, call))
  {
    RestWords(s, t);
  }

  // The first step of a call is the thread's own affair.
  lemma BeginLocal(s: State, t: nat, call: Call)
    requires t in s.locals && s.locals[t].pc.Idle?
    ensures var s' := Begin(s, t, call);
            && s'.locals.Keys == s.locals.Keys && s'.locals[t].holds == s.locals[t].holds
            && (forall u :: u in s.locals && u != t ==> s'.locals[u] == s.locals[u])
            && (Writer(s'.locals[t].pc) ==> call == WrLock)
  {}

  lemma RestAlone(s: State, t: nat, call: Call)
    requires Inv(s) && AtRest(s, t) && (call == Unlock ==> s.locals[t].holds > 0 || s.locals[t].writing)
    requires call == WrLock ==> forall u :: u in s.locals ==> s.locals[u].holds == 0
    ensures Alone(Begin(s, t, call), t) && During(s.locals[t], call, Begin(s, t, call).locals[t])
  {
    BeginLocal(s, t, call);
    BeginDuring(s, t, call);
    RestStep(s, t, call);
  }

  lemma RestStep(s: State, t: nat, call: Call)
    requires Inv(s) && AtRest(s, t) && (call == Unlock ==> s.locals[t].holds > 0 || s.locals[t].writing)
    ensures Inv(Begin(s, t, call))
  {
    StepKeeps(s, Move(t, call, false));
  }

  // From every state of every run in which all threads are between calls: a call that runs alone
  // comes back within nineteen steps, with its lock exactly when that is free. The blocking write
  // lock is claimed where nobody holds a read lock, since it would rightly wait for one.
  lemma RestReturns(kind: Kind, threads: set<nat>, moves: seq<Move>, t: nat, call: Call)
    requires Threads(threads)
    requires var s := Run(Start(kind, threads), moves);
             && AtRest(s, t) && (call == Unlock ==> s.locals[t].holds > 0 || s.locals[t].writing)
             && (call == WrLock ==> forall u :: u in s.locals ==> s.locals[u].holds == 0)
    ensures var s := Run(Start(kind, threads), moves);
            EndsSoon(Begin(s, t, call), t, s.locals[t], call, Grantable(s, t, call))
  {
    StartOk(kind, threads);
    RunKeeps(Start(kind, threads), moves);
    var s := Run(Start(kind, threads), moves);
    RestRefusing(s, t, call);
    RestAlone(s, t, call);
    AloneReturns(Begin(s, t, call), t, s.locals[t], call);
  }

  // ---------------------------------------------------------------- giving the lock up

  // A writer that has cleared its name and runs on alone leaves the token if this kind of lock
  // prefers writers and one is waiting. Otherwise it gives the right to write up, and ends the write
  // phase exactly if readers are waiting for that.
  ghost predicate GivesUp(s: State, t: nat, s': State) { Ceded(s, t, s', s.PreferWriter() && Waiters(s) != {}) }

  ghost predicate Ceded(s: State, t: nat, s': State, handed: bool) {
    && t in s'.locals && s'.locals[t].pc.Idle? && s'.readers.count == s.readers.count
    && s'.writers == (if handed then s.writers.(handover := true) else s.writers)
    && (handed ==> s'.readers == s.readers)
    && (!handed ==> !s'.readers.writerLocked && s'.readers.writePhase == (s.readers.count == 0)
                    && (s.readers.count > 0 ==> s'.phaseFutex == RESET))
  }

  lemma WriterGivesUp(kind: Kind, threads: set<nat>, moves: seq<Move>, t: nat)
    requires Threads(threads)
    requires var s := Run(Start(kind, threads), moves); t in s.locals && s.locals[t].pc == Owns(Close)
    ensures var s := Run(Start(kind, threads), moves); exists n: nat :: n <= 5 && GivesUp(s, t, Solo(s, t, n))
  {
    StartOk(kind, threads);
    RunKeeps(Start(kind, threads), moves);
    var n := Closes(Run(Start(kind, threads), moves), t);
  }

  // Whether a writer waits, as the writers word tells it.
  lemma WaitersSeen(s: State, t: nat)
    requires Inv(s) && t in s.locals && s.locals[t].pc == Owns(Close)
    ensures !s.writers.handover && s.readers.writePhase && s.readers.writerLocked
    ensures s.PreferWriter() ==> (WritersRaw(s.writers) != 0 <==> Waiters(s) != {})
  {
    WordsHold(s, t);
    PrimaryCount(s);
  }

  lemma Closes(s: State, t: nat) returns (n: nat)
    requires Inv(s) && t in s.locals && s.locals[t].pc == Owns(Close)
    ensures n <= 5 && GivesUp(s, t, Solo(s, t, n))
  {
    WaitersSeen(s, t);
    var s1 := s.(writersFutex := RESET).Goto(t, Owns(if s.PreferWriter() then HandLoad else Release));
    SoloOn(s, t, s1);
    if s.PreferWriter() {
      n := Hands(s1, t);
    } else {
      n := Releases(s1, t);
    }
    assert Solo(s, t, n + 1) == Solo(s1, t, n);
    n := n + 1;
  }

  lemma SoloOn(s: State, t: nat, s': State)
    requires s' == Step(s, Move(t, Unlock, false))
    ensures forall n: nat {:trigger Solo(s', t, n)} :: Solo(s, t, n + 1) == Solo(s', t, n)
  {}

  // With a writer waiting the token is left, otherwise the lock is released.
  lemma Hands(s: State, t: nat) returns (n: nat)
    requires t in s.locals && s.locals[t].pc == Owns(HandLoad) && s.readers.writePhase
    ensures 1 <= n <= 4 && Ceded(s, t, Solo(s, t, n), WritersRaw(s.writers) != 0)
  {
    var s1 := s.Goto(t, Owns(HandPc(s.writers)));
    SoloOn(s, t, s1);
    if WritersRaw(s.writers) == 0 {
      n := Releases(s1, t);
    } else {
      n := 1;
      HandsOver(s1, t);
    }
    assert Solo(s, t, n + 1) == Solo(s1, t, n);
    n := n + 1;
  }

  lemma HandsOver(s: State, t: nat)
    requires t in s.locals && s.locals[t].pc == Owns(HandCas(s.writers))
    ensures var s' := Solo(s, t, 1);
            && t in s'.locals && s'.locals[t].pc.Idle? && s'.readers == s.readers && s'.writers == s.writers.(handover := true)
  {
    assert Solo(s, t, 1) == Solo(Step(s, Move(t, Unlock, false)), t, 0);
  }

  lemma Releases(s: State, t: nat) returns (n: nat)
    requires t in s.locals && s.locals[t].pc == Owns(Release) && s.readers.writePhase
    ensures 1 <= n <= 2 && Ceded(s, t, Solo(s, t, n), false)
  {
    var s1 := Step(s, Move(t, Unlock, false));
    if s.readers.count == 0 {
      n := 1;
      assert Solo(s, t, 1) == Solo(s1, t, 0);
    } else {
      n := 2;
      var s2 := Step(s1, Move(t, Unlock, false));
      assert Solo(s, t, 2) == Solo(s1, t, 1) == Solo(s2, t, 0);
    }
  }

  // A reader that leaves takes itself off the count, and starts a write phase exactly when nobody
  // else is counted and somebody owns the right to write; deferred readers are let go with the last.
  lemma ReaderLeaves(kind: Kind, threads: set<nat>, moves: seq<Move>, t: nat)
    requires Threads(threads)
    requires var s := Run(Start(kind, threads), moves); t in s.locals && s.locals[t].pc == Leaves(ReadRelease)
    ensures var s := Run(Start(kind, threads), moves);
            var s' := StepLeave(s, t, ReadRelease);
            && t in s'.locals && s'.locals[t].holds == s.locals[t].holds - 1 && s'.readers.count == s.readers.count - 1
            && (s'.readers.writePhase <==> s.readers.count == 1 && RightTaken(s))
            && (s'.locals[t].pc == Leaves(ReadHandOver) <==> s'.readers.writePhase)
            && s'.readers.readersWaiting == (s.readers.readersWaiting && s.readers.count > 1)
  {
    StartOk(kind, threads);
    RunKeeps(Start(kind, threads), moves);
    WordsMean(kind, threads, moves);
    LeavingReader(Run(Start(kind, threads), moves), t);
  }

  lemma LeavingReader(s: State, t: nat)
    requires Inv(s) && t in s.locals && s.locals[t].pc == Leaves(ReadRelease)
    ensures s.locals[t].holds > 0 && s.readers.count > 0 && !s.readers.writePhase
  {
    WordsHold(s, t);
  }

  // Where readers must not pass a waiting writer, one defers exactly when somebody owns the right to
  // write and readers are in; otherwise it goes on to be counted.
  lemma ReaderDefers(kind: Kind, threads: set<nat>, moves: seq<Move>, t: nat, flaky: bool)
    requires Threads(threads)
    requires var s := Run(Start(kind, threads), moves); t in s.locals && s.locals[t].pc == Asks(ReadDeferLoad)
    ensures var s := Run(Start(kind, threads), moves);
            var s' := StepAsk(s, t, ReadDeferLoad, flaky);
            && t in s'.locals
            && s'.locals[t].pc == Asks(if RightTaken(s) && !s.readers.writePhase && Sum(s.locals, Share) > 0
                                       then ReadDefer(s.readers) else ReadAdd)
  {
    WordsMean(kind, threads, moves);
  }
}
