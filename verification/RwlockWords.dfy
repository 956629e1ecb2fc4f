/** The lock as the program keeps it: raw 32-bit words that threads change with single
    atomic operations. Every method performs one such operation on behalf of one thread
    and is proved to be the corresponding step of the protocol in module `Rwlock`. */
module RwlockWords {
  import opened Arithmetic
  import opened Rwlock
  import opened RwlockCalls
  import opened Tally

  function PhaseRaw(w: PhaseWord): nat { (if w.phase then 1 else 0) + (if w.used then 2 else 0) }

  lemma ReadersRawInjective(a: Readers, b: Readers)
    requires a.count < MAX_COUNT && ReadersRaw(a) == ReadersRaw(b)
    ensures a == b
  {
    assert ReadersRaw(b) < WORD;
    ReadersRoundTrip(a);
    ReadersRoundTrip(b);
  }

  lemma WritersRawInjective(a: Writers, b: Writers)
    requires a.waiting < MAX_WAITING && b.waiting < MAX_WAITING && WritersRaw(a) == WritersRaw(b)
    ensures a == b
  {
    WritersRoundTrip(a);
    WritersRoundTrip(b);
  }

  lemma StepsDuring(s: State, m: Move)
    requires Inv(s) && m.tid in s.locals
    ensures m.tid in Step(s, m).locals
    ensures forall before, call :: During(before, call, s.locals[m.tid]) ==> Continues(before, call, Step(s, m).locals[m.tid])
  {
    StepChange(s, m);
    forall before, call | During(before, call, s.locals[m.tid])
      ensures Continues(before, call, Step(s, m).locals[m.tid])
    {
      StepDuring(s, m, before, call);
    }
  }

  class PthreadRwlock {
    const kind: Kind
    var readers: nat
    var writers: nat
    var writePhaseFutex: nat
    var writersFutex: nat
    var currentWriter: nat
    // Each thread's own registers and call state.
    var locals: map<nat, Local>
    ghost var model: State

    // The raw words are the packed form of the protocol's state.
    ghost predicate Packed()
      reads this
    {
      && model.kind == kind && locals == model.locals && currentWriter == model.currentWriter
      && model.readers.count < MAX_COUNT && readers == ReadersRaw(model.readers)
      && model.writers.waiting < MAX_WAITING && writers == WritersRaw(model.writers)
      && writePhaseFutex == PhaseRaw(model.phaseFutex) && writersFutex == PhaseRaw(model.writersFutex)
    }

    ghost predicate Valid()
      reads this
    {
      Packed() && Inv(model)
    }

    constructor (kind: Kind, threads: set<nat>)
      requires Threads(threads)
      ensures Valid() && model == Start(kind, threads)
    {
      this.kind := kind;
      readers, writers, writePhaseFutex, writersFutex, currentWriter := 0, 0, 0, 0, 0;
      locals := map t | t in threads :: OUTSIDE;
      model := Start(kind, threads);
      StartOk(kind, threads);
    }

    method Goto(t: nat, l: Local)
      requires Packed() && t in locals
      modifies this`locals, this`model
      ensures Packed() && model == old(model).Set(t, l)
    {
      locals := locals[t := l];
      model := model.Set(t, l);
    }

    method LoadReaders() returns (r: Readers)
      requires Packed()
      ensures r == model.readers
    {
      ReadersRoundTrip(model.readers);
      r := ReadersFrom(readers);
    }

    method StoreReaders(r: Readers)
      requires Packed() && r.count < MAX_COUNT
      modifies this`readers, this`model
      ensures Packed() && model == old(model).(readers := r)
    {
      readers := ReadersRaw(r);
      model := model.(readers := r);
    }

    // compare_exchange_weak on the raw word.
    method CompareExchangeReaders(expected: Readers, next: Readers, flaky: bool) returns (ok: bool)
      requires Packed() && (expected.count < MAX_COUNT ==> next.count < MAX_COUNT)
      modifies this`readers, this`model
      ensures Packed()
      ensures ok == (old(model).readers == expected && !flaky)
      ensures model == if ok then old(model).(readers := next) else old(model)
    {
      ok := readers == ReadersRaw(expected) && !flaky;
      if ok {
        ReadersRawInjective(model.readers, expected);
        StoreReaders(next);
      }
    }

    // fetch_add of one reader on the raw word; returns the new value.
    method FetchAddReader() returns (r: Readers)
      requires Packed()
      modifies this`readers, this`model
      ensures Packed() && r == AddReader(old(model).readers) && model == old(model).(readers := r)
    {
      AddReaderRaw(model.readers);
      readers := (readers + 8) % WORD;
      r := ReadersFrom(readers);
      model := model.(readers := r);
    }

    method LoadWriters() returns (w: Writers)
      requires Packed()
      ensures w == model.writers
    {
      WritersRoundTrip(model.writers);
      w := WritersFrom(writers);
    }

    method FetchAddWaiting(amount: nat) returns (w: Writers)
      requires Packed() && (amount == 1 || amount == WORD - 1)
      modifies this`writers, this`model
      ensures Packed()
      ensures w == if amount == 1 then AddWaiting(old(model).writers) else SubWaiting(old(model).writers)
      ensures model == old(model).(writers := w)
    {
      WaitingRaw(model.writers);
      writers := (writers + amount) % WORD;
      w := WritersFrom(writers);
      model := model.(writers := w);
    }

    method CompareExchangeWriters(expected: Writers, next: Writers, flaky: bool) returns (ok: bool)
      requires Packed() && next.waiting < MAX_WAITING && expected.waiting < MAX_WAITING
      modifies this`writers, this`model
      ensures Packed()
      ensures ok == (old(model).writers == expected && !flaky)
      ensures model == if ok then old(model).(writers := next) else old(model)
    {
      ok := writers == WritersRaw(expected) && !flaky;
      if ok {
        WritersRawInjective(model.writers, expected);
        writers := WritersRaw(next);
        model := model.(writers := next);
      }
    }

    method LoadPhase() returns (w: PhaseWord)
      requires Packed()
      ensures w == model.phaseFutex
    {
      w := PhaseWord(writePhaseFutex % 2 == 1, writePhaseFutex / 2 % 2 == 1);
    }

    method StorePhase(w: PhaseWord)
      requires Packed()
      modifies this`writePhaseFutex, this`model
      ensures Packed() && model == old(model).(phaseFutex := w)
    {
      writePhaseFutex := PhaseRaw(w);
      model := model.(phaseFutex := w);
    }

    method LoadQueue() returns (w: PhaseWord)
      requires Packed()
      ensures w == model.writersFutex
    {
      w := PhaseWord(writersFutex % 2 == 1, writersFutex / 2 % 2 == 1);
    }

    method StoreQueue(w: PhaseWord)
      requires Packed()
      modifies this`writersFutex, this`model
      ensures Packed() && model == old(model).(writersFutex := w)
    {
      writersFutex := PhaseRaw(w);
      model := model.(writersFutex := w);
    }

    // One thread's next atomic operation, anywhere in the lock's seven operations. A call it is part
    // of goes on, or returns what that call has to answer.
    method Advance(m: Move)
      requires Valid() && m.tid in locals
      modifies this
      ensures Valid() && model == Step(old(model), m)
      ensures m.tid in locals
      ensures forall before, call :: During(before, call, old(locals[m.tid])) ==> Continues(before, call, locals[m.tid])
    {
      StepKeeps(model, m);
      StepsDuring(model, m);
      match locals[m.tid].pc
      case Idle => Call(m.tid, m.call);
      case Asks(ask) =>
        if ask.WriteCheck? || ask.WriteClaim? || ask.WriteRegister? || ask.TryWriteClaim? { AskWrite(m.tid, ask); }
        else { AskRead(m.tid, ask, m.flaky); }
      case Waits(wait) => AwaitReadPhase(m.tid, wait, m.flaky);
      case Enters(enter) => EnterReadPhase(m.tid, enter, m.flaky);
      case Queues(queue, shared) => Queue(m.tid, queue, shared, m.flaky);
      case Claims(claim) => ClaimPhase(m.tid, claim, m.flaky);
      case Owns(own) =>
        if own.Close? || own.HandLoad? || own.HandCas? || own.Release? { WriteUnlock(m.tid, own, m.flaky); }
        else { FinishWriteLock(m.tid, own, m.flaky); }
      case Leaves(leave) => Leave(m.tid, leave);
    }

    method Jump(t: nat, pc: Pc)
      requires Packed() && t in locals
      modifies this`locals, this`model
      ensures Packed() && model == old(model).Goto(t, pc)
    {
      Goto(t, locals[t].(pc := pc));
    }

    method Call(t: nat, call: Call)
      requires Packed() && t in locals
      modifies this`locals, this`model
      ensures Packed() && model == Begin(old(model), t, call)
    {
      var l := locals[t].(call := call);
      match call
      case RdLock => Goto(t, l.(pc := Asks(ReadCheck)));
      case TryRdLock => Goto(t, l.(pc := Asks(TryReadLoad)));
      case WrLock => Goto(t, l.(pc := Asks(WriteCheck)));
      case TryWrLock => Goto(t, l.(pc := Asks(TryWriteClaim)));
      case Unlock => if l.holds > 0 || l.writing { Goto(t, l.(pc := Leaves(UnlockCheck))); }
    }

    method AskRead(t: nat, ask: Asking, flaky: bool)
      requires Packed() && t in locals
      requires !ask.WriteCheck? && !ask.WriteClaim? && !ask.WriteRegister? && !ask.TryWriteClaim?
      modifies this
      ensures Packed() && model == StepAsk(old(model), t, ask, flaky)
    {
      match ask
      case ReadCheck =>
        if currentWriter == t { Goto(t, Returned(locals[t], Deadlock)); }
        else { Jump(t, Asks(if kind == PreferWriterNonrecursive then ReadDeferLoad else ReadAdd)); }
      case ReadDeferLoad =>
        var state := LoadReaders();
        Jump(t, DeferPc(state));
      case ReadDefer(seen) =>
        var ok := CompareExchangeReaders(seen, seen.(readersWaiting := true), flaky);
        if ok { Jump(t, Asks(ReadDeferWait)); }
        else { var state := LoadReaders(); Jump(t, DeferPc(state)); }
      case ReadDeferWait =>
        var state := LoadReaders();
        if !state.readersWaiting { Jump(t, DeferPc(state)); }
      case ReadAdd =>
        var state := FetchAddReader();
        if state.count >= MAX_READERS { Jump(t, Waits(ReadUndo)); }
        else if !state.writePhase { Goto(t, Granted(locals[t])); }
        else { Jump(t, Waits(ReadStart)); }
      case TryReadLoad =>
        var state := LoadReaders();
        Jump(t, Asks(TryReadCas(state)));
      case TryReadCas(seen) =>
        if seen.count >= MAX_READERS { Goto(t, Returned(locals[t], Again)); }
        else if seen.writerLocked && (seen.writePhase || kind == PreferWriterNonrecursive) { Goto(t, Returned(locals[t], Busy)); }
        else {
          var ok := CompareExchangeReaders(seen, seen.(count := seen.count + 1, writePhase := false), flaky);
          if !ok { var state := LoadReaders(); Jump(t, Asks(TryReadCas(state))); }
          else if seen.writePhase { Jump(t, Enters(ReadReset)); }
          else { Goto(t, Granted(locals[t])); }
        }
    }

    method AskWrite(t: nat, ask: Asking)
      requires Packed() && t in locals
      requires ask.WriteCheck? || ask.WriteClaim? || ask.WriteRegister? || ask.TryWriteClaim?
      modifies this
      ensures forall flaky :: Packed() && model == StepAsk(old(model), t, ask, flaky)
    {
      match ask
      case WriteCheck => Goto(t, if currentWriter == t then Returned(locals[t], Deadlock) else locals[t].(pc := Asks(WriteClaim)));
      case WriteClaim =>
        var seen := LoadReaders();
        StoreReaders(seen.(writerLocked := true));
        if !seen.writerLocked { Jump(t, Claims(Publish(seen, false))); }
        else if kind != PreferReader { Jump(t, Asks(WriteRegister(seen))); }
        else { Jump(t, Queues(Park, false)); }
      case WriteRegister(seen) =>
        var _ := FetchAddWaiting(1);
        Jump(t, Queues(Queued.LoadWriters(seen), false));
      case TryWriteClaim =>
        var seen := LoadReaders();
        if !seen.writerLocked && (seen.count == 0 || (kind != PreferReader && seen.writePhase)) {
          StoreReaders(seen.(writePhase := true, writerLocked := true));
          Jump(t, Owns(TryPublish(seen.writePhase)));
        } else { Goto(t, Returned(locals[t], Busy)); }
    }

    method AwaitReadPhase(t: nat, wait: Counted, flaky: bool)
      requires Packed() && t in locals
      modifies this
      ensures Packed() && model == StepWait(old(model), t, wait, flaky)
    {
      match wait
      case ReadUndo =>
        var state := LoadReaders();
        if state.count > 0 {
          StoreReaders(state.(count := state.count - 1));
          Goto(t, Returned(locals[t], Again));
        }
      case ReadStart =>
        var state := LoadReaders();
        if state.writePhase && !state.writerLocked {
          StoreReaders(state.(writePhase := false));
          Jump(t, Enters(ReadReset));
        } else { Jump(t, Waits(ReadAwait)); }
      case ReadAwait =>
        var word := LoadPhase();
        if !word.phase { Jump(t, Waits(ReadConfirm)); }
        else if !word.used { Jump(t, Waits(ReadAwaitMark(word))); }
      case ReadAwaitMark(word) =>
        var current := LoadPhase();
        if current == word && !flaky { StorePhase(word.(used := true)); }
        Jump(t, Waits(ReadAwait));
      case ReadConfirm =>
        var state := LoadReaders();
        Jump(t, if state.writePhase then Waits(ReadAwait) else Enters(ReadSettle));
    }

    method EnterReadPhase(t: nat, enter: Admitted, flaky: bool)
      requires Packed() && t in locals
      modifies this
      ensures Packed() && model == StepEnter(old(model), t, enter, flaky)
    {
      match enter
      case ReadReset =>
        StorePhase(RESET);
        Goto(t, Granted(locals[t]));
      case ReadSettle =>
        var word := LoadPhase();
        if !word.phase { Goto(t, Granted(locals[t])); }
        else if !word.used { Jump(t, Enters(ReadSettleMark(word))); }
      case ReadSettleMark(word) =>
        var current := LoadPhase();
        if current == word && !flaky { StorePhase(word.(used := true)); }
        Jump(t, Enters(ReadSettle));
    }

    method Queue(t: nat, queue: Queued, shared: bool, flaky: bool)
      requires Packed() && t in locals && (queue.TakeToken? ==> queue.writers.waiting < MAX_WAITING)
      modifies this
      ensures Packed() && model == StepQueue(old(model), t, queue, shared, flaky)
    {
      var prefer := kind != PreferReader;
      match queue
      case Contend(seen) =>
        var ok := CompareExchangeReaders(seen, seen.(writerLocked := true), flaky);
        if !ok { var state := LoadReaders(); Jump(t, ContendPc(prefer, state, shared)); }
        else if prefer { Jump(t, Claims(Deduct(seen, shared))); }
        else { Jump(t, Claims(Publish(seen.(writerLocked := true), shared))); }
      case LoadWriters(seen) =>
        var waiting := LoadWriters();
        Jump(t, Queues(if waiting.handover then TakeToken(seen, waiting) else Park, shared));
      case TakeToken(seen, expected) =>
        var next := SubWaiting(expected).(handover := false);
        var ok := CompareExchangeWriters(expected, next, flaky);
        if ok { Jump(t, Owns(TokenReload(shared))); }
        else { Jump(t, ContendPc(prefer, seen, shared)); }
      case Park =>
        var word := LoadQueue();
        if !word.phase { Jump(t, Queues(Reload, shared)); }
        else if word.used { Jump(t, Queues(Reload, true)); }
        else { Jump(t, Queues(Mark(word), shared)); }
      case Mark(word) =>
        var current := LoadQueue();
        if current == word && !flaky {
          StoreQueue(word.(used := true));
          Jump(t, Queues(Reload, true));
        } else { Jump(t, Queues(Reload, shared)); }
      case Reload =>
        var state := LoadReaders();
        Jump(t, ContendPc(prefer, state, shared));
    }

    method ClaimPhase(t: nat, claim: Claimed, flaky: bool)
      requires Packed() && t in locals
      modifies this
      ensures Packed() && model == StepClaim(old(model), t, claim, flaky)
    {
      match claim
      case Deduct(seen, shared) =>
        var _ := FetchAddWaiting(WORD - 1);
        Jump(t, Claims(Publish(seen.(writerLocked := true), shared)));
      case Publish(seen, shared) =>
        StoreQueue(PhaseWord(true, shared));
        Jump(t, if seen.writePhase then Owns(StoreWriter) else PhasePc(seen));
      case PhaseCas(seen) =>
        var ok := CompareExchangeReaders(seen, seen.(writePhase := true), flaky);
        if ok { Jump(t, Owns(Owning.StorePhase(seen.writePhase))); }
        else { var state := LoadReaders(); Jump(t, PhasePc(state)); }
      case WriteAwait =>
        var word := LoadPhase();
        if word.phase { Jump(t, Claims(WriteConfirm)); }
        else if !word.used { Jump(t, Claims(WriteAwaitMark(word))); }
      case WriteAwaitMark(word) =>
        var current := LoadPhase();
        if current == word && !flaky { StorePhase(word.(used := true)); }
        Jump(t, Claims(WriteAwait));
      case WriteConfirm =>
        var state := LoadReaders();
        Jump(t, if state.writePhase then Owns(WriteSettle) else Claims(WriteAwait));
    }

    method FinishWriteLock(t: nat, own: Owning, flaky: bool)
      requires Packed() && t in locals && !own.Close? && !own.HandLoad? && !own.HandCas? && !own.Release?
      modifies this
      ensures Packed() && model == StepOwn(old(model), t, own, flaky)
    {
      match own
      case TokenReload(shared) =>
        var state := LoadReaders();
        Jump(t, Claims(Publish(state.(writerLocked := true), shared)));
      case StorePhase(already) =>
        StorePhase(RAISED);
        Jump(t, if already then Owns(StoreWriter) else Claims(WriteAwait));
      case TryPublish(running) =>
        StoreQueue(RAISED);
        Jump(t, Owns(if running then StoreWriter else Owning.StorePhase(true)));
      case WriteSettle =>
        var word := LoadPhase();
        if word.phase { Jump(t, Owns(StoreWriter)); }
        else if !word.used { Jump(t, Owns(WriteSettleMark(word))); }
      case WriteSettleMark(word) =>
        var current := LoadPhase();
        if current == word && !flaky { StorePhase(word.(used := true)); }
        Jump(t, Owns(WriteSettle));
      case StoreWriter =>
        currentWriter := t;
        model := model.(currentWriter := t);
        Goto(t, Returned(locals[t].(writing := true), Ok));
    }

    method WriteUnlock(t: nat, own: Owning, flaky: bool)
      requires Packed() && t in locals && (own.Close? || own.HandLoad? || own.HandCas? || own.Release?)
      requires own.HandCas? ==> own.writers.waiting < MAX_WAITING
      modifies this
      ensures Packed() && model == StepOwn(old(model), t, own, flaky)
    {
      match own
      case Close =>
        StoreQueue(RESET);
        Jump(t, Owns(if kind != PreferReader then HandLoad else Release));
      case HandLoad =>
        var waiting := LoadWriters();
        Jump(t, Owns(HandPc(waiting)));
      case HandCas(expected) =>
        var ok := CompareExchangeWriters(expected, expected.(handover := true), flaky);
        if ok { Goto(t, Returned(locals[t], Ok)); }
        else { var waiting := LoadWriters(); Jump(t, Owns(HandPc(waiting))); }
      case Release =>
        var state := LoadReaders();
        var phase := if state.count != 0 then !state.writePhase else state.writePhase;
        StoreReaders(state.(writerLocked := false, writePhase := phase));
        Goto(t, if state.count != 0 then locals[t].(pc := Leaves(PhaseReset)) else Returned(locals[t], Ok));
    }

    method Leave(t: nat, leave: Leaving)
      requires Packed() && t in locals
      modifies this
      ensures Packed() && model == StepLeave(old(model), t, leave)
    {
      match leave
      case UnlockCheck => Jump(t, Leaves(if currentWriter == t then WriteClear else ReadRelease));
      case ReadRelease =>
        var state := LoadReaders();
        var l := locals[t];
        if l.holds > 0 && state.count > 0 {
          var left := Released(state);
          StoreReaders(left);
          Goto(t, LeftPhase(l.(holds := l.holds - 1), left.writePhase));
        }
      case ReadHandOver =>
        StorePhase(RAISED);
        Goto(t, Returned(locals[t], Ok));
      case WriteClear =>
        currentWriter := 0;
        model := model.(currentWriter := 0);
        Goto(t, locals[t].(writing := false, pc := Owns(Close)));
      case PhaseReset =>
        StorePhase(RESET);
        Goto(t, Returned(locals[t], Ok));
    }
  }
}
