/** The pthread reader-writer lock: two packed state words, two futex words and the
    current writer's tid, driven by arbitrarily many threads. `Step` performs one
    thread's next atomic operation; every interleaving is a sequence of moves. */
module Rwlock {
  import opened Arithmetic
  import opened Tally

  /** The readers word. Bits 0, 1, 2 are the flags, bits 3..31 the reader count. */
  datatype Readers = Readers(writePhase: bool, writerLocked: bool, readersWaiting: bool, count: nat)

  /** The writers word. Bits 0..30 count waiting writers, bit 31 is the hand-over token. */
  datatype Writers = Writers(waiting: nat, handover: bool)

  /** A futex word: a copy of the phase bit and a mark left by threads that may sleep. */
  datatype PhaseWord = PhaseWord(phase: bool, used: bool)

  const MAX_READERS: nat := 0x1000_0000
  const MAX_THREADS: nat := 0x1000_0000

  function ReadersRaw(r: Readers): nat {
    (if r.writePhase then 1 else 0) + (if r.writerLocked then 2 else 0)
    + (if r.readersWaiting then 4 else 0) + 8 * r.count
  }

  function ReadersFrom(raw: nat): Readers {
    Readers(raw % 2 == 1, raw / 2 % 2 == 1, raw / 4 % 2 == 1, raw / 8)
  }

  function WritersRaw(w: Writers): nat {
    w.waiting + if w.handover then 0x8000_0000 else 0
  }

  function WritersFrom(raw: nat): Writers {
    Writers(raw % 0x8000_0000, raw / 0x8000_0000 % 2 == 1)
  }

  const MAX_COUNT: nat := 0x2000_0000
  const MAX_WAITING: nat := 0x8000_0000

  // fetch_add and fetch_sub act on the raw 32-bit words; these are their effects on the fields.
  function AddReader(r: Readers): Readers {
    r.(count := if r.count + 1 == MAX_COUNT then 0 else r.count + 1)
  }

  function AddWaiting(w: Writers): Writers {
    if w.waiting + 1 == MAX_WAITING then Writers(0, !w.handover) else Writers(w.waiting + 1, w.handover)
  }

  function SubWaiting(w: Writers): Writers {
    if w.waiting == 0 then Writers(MAX_WAITING - 1, !w.handover) else Writers(w.waiting - 1, w.handover)
  }

  lemma ReadersRoundTrip(r: Readers)
    requires r.count < MAX_COUNT
    ensures ReadersRaw(r) < WORD && ReadersFrom(ReadersRaw(r)) == r
  {
    LowBits(if r.writePhase then 1 else 0, if r.writerLocked then 1 else 0, if r.readersWaiting then 1 else 0, r.count);
  }

  lemma LowBits(a: nat, b: nat, c: nat, high: nat)
    requires a <= 1 && b <= 1 && c <= 1
    ensures var raw := a + 2 * b + 4 * c + 8 * high;
            raw % 2 == a && raw / 2 % 2 == b && raw / 4 % 2 == c && raw / 8 == high
  {
    var quarter := c + 2 * high;
    var half := b + 2 * quarter;
    LowBit(a, half);
    LowBit(b, quarter);
    LowBit(c, high);
    var raw := a + 2 * half;
    assert raw / 4 == half / 2 && raw / 8 == quarter / 2;
  }

  lemma LowBit(bit: nat, rest: nat)
    requires bit <= 1
    ensures (bit + 2 * rest) % 2 == bit && (bit + 2 * rest) / 2 == rest
  {}

  lemma WritersRoundTrip(w: Writers)
    requires w.waiting < MAX_WAITING
    ensures WritersRaw(w) < WORD && WritersFrom(WritersRaw(w)) == w
  {}

  // Adding 8 to the raw word never disturbs the flags, even when the count wraps.
  lemma AddReaderRaw(r: Readers)
    requires r.count < MAX_COUNT
    ensures (ReadersRaw(r) + 8) % WORD == ReadersRaw(AddReader(r))
    ensures ReadersFrom((ReadersRaw(r) + 8) % WORD) == AddReader(r)
  {
    ReadersRoundTrip(AddReader(r));
  }

  // Adding or subtracting 1 reaches the token bit exactly when the count wraps.
  lemma WaitingRaw(w: Writers)
    requires w.waiting < MAX_WAITING
    ensures (WritersRaw(w) + 1) % WORD == WritersRaw(AddWaiting(w))
    ensures (WritersRaw(w) + WORD - 1) % WORD == WritersRaw(SubWaiting(w))
    ensures WritersFrom((WritersRaw(w) + 1) % WORD) == AddWaiting(w)
    ensures WritersFrom((WritersRaw(w) + WORD - 1) % WORD) == SubWaiting(w)
  {
    WritersRoundTrip(AddWaiting(w));
    WritersRoundTrip(SubWaiting(w));
  }

  // Where a thread stands: the atomic operation it performs next, with the local variables
  // that survive until then. `seen` is a loaded readers word, `shared` is `may_share_used`.

  /** A call that has not touched the counts yet. */
  datatype Asking =
    | ReadCheck | ReadDeferLoad | ReadDefer(seen: Readers) | ReadDeferWait | ReadAdd
    | TryReadLoad | TryReadCas(seen: Readers)
    | WriteCheck | WriteClaim | WriteRegister(seen: Readers) | TryWriteClaim

  /** A counted reader that has not been let in. */
  datatype Counted = ReadUndo | ReadStart | ReadAwait | ReadAwaitMark(word: PhaseWord) | ReadConfirm

  /** A counted reader that has been let in and still has duties before it returns. */
  datatype Admitted = ReadReset | ReadSettle | ReadSettleMark(word: PhaseWord)

  /** A writer that found another primary writer. */
  datatype Queued =
    | Contend(seen: Readers) | LoadWriters(seen: Readers) | TakeToken(seen: Readers, writers: Writers)
    | Park | Mark(word: PhaseWord) | Reload

  /** A primary writer whose write phase may not run yet. */
  datatype Claimed =
    | Deduct(seen: Readers, shared: bool) | Publish(seen: Readers, shared: bool) | PhaseCas(seen: Readers)
    | WriteAwait | WriteAwaitMark(word: PhaseWord) | WriteConfirm

  /** A primary writer in a running write phase: entering, or giving the lock up. */
  datatype Owning =
    | TokenReload(shared: bool) | StorePhase(already: bool) | TryPublish(running: bool)
    | WriteSettle | WriteSettleMark(word: PhaseWord) | StoreWriter
    | Close | HandLoad | HandCas(writers: Writers) | Release

  /** An unlock call before and after the lock is given up. */
  datatype Leaving = UnlockCheck | ReadRelease | ReadHandOver | WriteClear | PhaseReset

  datatype Pc =
    | Idle
    | Asks(ask: Asking)
    | Waits(wait: Counted)
    | Enters(enter: Admitted)
    | Queues(queue: Queued, shared: bool)
    | Claims(claim: Claimed)
    | Owns(own: Owning)
    | Leaves(leave: Leaving)

  datatype Call = RdLock | TryRdLock | WrLock | TryWrLock | Unlock

  /** What a call returns: zero or an error number. */
  datatype Code = Ok | Deadlock | Again | Busy

  /** One thread: the read locks it holds, whether it holds the write lock, its program point,
      its latest call and what its latest finished call returned. */
  datatype Local = Local(holds: nat, writing: bool, pc: Pc, call: Call, result: Code)

  const OUTSIDE: Local := Local(0, false, Idle, Unlock, Ok)

  datatype Kind = PreferReader | PreferWriter | PreferWriterNonrecursive

  datatype State = State(
    kind: Kind,
    readers: Readers,
    writers: Writers,
    phaseFutex: PhaseWord,
    writersFutex: PhaseWord,
    currentWriter: nat,
    locals: map<nat, Local>)
  {
    function PreferWriter(): bool { kind != PreferReader }
    function Goto(t: nat, pc: Pc): State requires t in locals { this.(locals := locals[t := locals[t].(pc := pc)]) }
    function Set(t: nat, l: Local): State requires t in locals { this.(locals := locals[t := l]) }
  }

  /** Thread `tid` takes its next step; an idle thread makes `call`. A weak
      compare-exchange fails when the word differs and may fail when `flaky`. */
  datatype Move = Move(tid: nat, call: Call, flaky: bool)

  const RESET: PhaseWord := PhaseWord(false, false)
  const RAISED: PhaseWord := PhaseWord(true, false)

  function Step(s: State, m: Move): State {
    if m.tid !in s.locals then s
    else
      match s.locals[m.tid].pc
      case Idle => Begin(s, m.tid, m.call)
      case Asks(ask) => StepAsk(s, m.tid, ask, m.flaky)
      case Waits(wait) => StepWait(s, m.tid, wait, m.flaky)
      case Enters(enter) => StepEnter(s, m.tid, enter, m.flaky)
      case Queues(queue, shared) => StepQueue(s, m.tid, queue, shared, m.flaky)
      case Claims(claim) => StepClaim(s, m.tid, claim, m.flaky)
      case Owns(own) => StepOwn(s, m.tid, own, m.flaky)
      case Leaves(leave) => StepLeave(s, m.tid, leave)
  }

  // Only a thread that holds the lock may unlock it: other unlock calls are the caller's error.
  function Begin(s: State, t: nat, call: Call): State
    requires t in s.locals
  {
    var l := s.locals[t].(call := call);
    match call
    case RdLock => s.Set(t, l.(pc := Asks(ReadCheck)))
    case TryRdLock => s.Set(t, l.(pc := Asks(TryReadLoad)))
    case WrLock => s.Set(t, l.(pc := Asks(WriteCheck)))
    case TryWrLock => s.Set(t, l.(pc := Asks(TryWriteClaim)))
    case Unlock => if l.holds > 0 || l.writing then s.Set(t, l.(pc := Leaves(UnlockCheck))) else s
  }

  function Returned(l: Local, result: Code): Local { l.(pc := Idle, result := result) }

  function Granted(l: Local): Local { Returned(l.(holds := l.holds + 1), Ok) }

  function DeferPc(seen: Readers): Pc {
    Asks(if !seen.writePhase && seen.writerLocked && seen.count != 0 then ReadDefer(seen) else ReadAdd)
  }

  function StepAsk(s: State, t: nat, ask: Asking, flaky: bool): State
    requires t in s.locals
  {
    var l := s.locals[t];
    match ask
    case ReadCheck =>
      if s.currentWriter == t then s.Set(t, Returned(l, Deadlock))
      else s.Goto(t, Asks(if s.kind == PreferWriterNonrecursive then ReadDeferLoad else ReadAdd))
    case ReadDeferLoad => s.Goto(t, DeferPc(s.readers))
    case ReadDefer(seen) =>
      if s.readers == seen && !flaky then
        s.(readers := seen.(readersWaiting := true)).Goto(t, Asks(ReadDeferWait))
      else s.Goto(t, DeferPc(s.readers))
    case ReadDeferWait =>
      if s.readers.readersWaiting then s else s.Goto(t, DeferPc(s.readers))
    case ReadAdd =>
      var added := AddReader(s.readers);
      var s' := s.(readers := added);
      if added.count >= MAX_READERS then s'.Goto(t, Waits(ReadUndo))
      else if !added.writePhase then s'.Set(t, Granted(l))
      else s'.Goto(t, Waits(ReadStart))
    case TryReadLoad => s.Goto(t, Asks(TryReadCas(s.readers)))
    case TryReadCas(seen) =>
      if seen.count >= MAX_READERS then s.Set(t, Returned(l, Again))
      else if seen.writerLocked && (seen.writePhase || s.kind == PreferWriterNonrecursive) then s.Set(t, Returned(l, Busy))
      else if s.readers == seen && !flaky then
        var s' := s.(readers := seen.(count := seen.count + 1, writePhase := false));
        if seen.writePhase then s'.Goto(t, Enters(ReadReset)) else s'.Set(t, Granted(l))
      else s.Goto(t, Asks(TryReadCas(s.readers)))
    case WriteCheck => s.Set(t, if s.currentWriter == t then Returned(l, Deadlock) else l.(pc := Asks(WriteClaim)))
    case WriteClaim =>
      var seen := s.readers;
      var s' := s.(readers := seen.(writerLocked := true));
      if !seen.writerLocked then s'.Goto(t, Claims(Publish(seen, false)))
      else if s.PreferWriter() then s'.Goto(t, Asks(WriteRegister(seen)))
      else s'.Goto(t, Queues(Park, false))
    case WriteRegister(seen) =>
      s.(writers := AddWaiting(s.writers)).Goto(t, Queues(LoadWriters(seen), false))
    case TryWriteClaim =>
      var seen := s.readers;
      if !seen.writerLocked && (seen.count == 0 || (s.PreferWriter() && seen.writePhase)) then
        s.(readers := seen.(writePhase := true, writerLocked := true)).Goto(t, Owns(TryPublish(seen.writePhase)))
      else s.Set(t, Returned(l, Busy))
  }

  function StepWait(s: State, t: nat, wait: Counted, flaky: bool): State
    requires t in s.locals
  {
    match wait
    case ReadUndo =>
      if s.readers.count == 0 then s
      else s.(readers := s.readers.(count := s.readers.count - 1)).Set(t, Returned(s.locals[t], Again))
    case ReadStart =>
      if s.readers.writePhase && !s.readers.writerLocked then
        s.(readers := s.readers.(writePhase := false)).Goto(t, Enters(ReadReset))
      else s.Goto(t, Waits(ReadAwait))
    case ReadAwait =>
      var word := s.phaseFutex;
      if !word.phase then s.Goto(t, Waits(ReadConfirm))
      else if word.used then s
      else s.Goto(t, Waits(ReadAwaitMark(word)))
    case ReadAwaitMark(word) =>
      if s.phaseFutex == word && !flaky then s.(phaseFutex := word.(used := true)).Goto(t, Waits(ReadAwait))
      else s.Goto(t, Waits(ReadAwait))
    case ReadConfirm => s.Goto(t, if s.readers.writePhase then Waits(ReadAwait) else Enters(ReadSettle))
  }

  function StepEnter(s: State, t: nat, enter: Admitted, flaky: bool): State
    requires t in s.locals
  {
    var l := s.locals[t];
    match enter
    case ReadReset => s.(phaseFutex := RESET).Set(t, Granted(l))
    case ReadSettle =>
      var word := s.phaseFutex;
      if !word.phase then s.Set(t, Granted(l))
      else if word.used then s
      else s.Goto(t, Enters(ReadSettleMark(word)))
    case ReadSettleMark(word) =>
      if s.phaseFutex == word && !flaky then s.(phaseFutex := word.(used := true)).Goto(t, Enters(ReadSettle))
      else s.Goto(t, Enters(ReadSettle))
  }

  // The next atomic operation of the waiting loop, given the last loaded readers word.
  function ContendPc(prefer: bool, seen: Readers, shared: bool): Pc {
    Queues(if !seen.writerLocked then Contend(seen) else if prefer then LoadWriters(seen) else Park, shared)
  }

  function StepQueue(s: State, t: nat, queue: Queued, shared: bool, flaky: bool): State
    requires t in s.locals
  {
    match queue
    case Contend(seen) =>
      if s.readers == seen && !flaky then
        var s' := s.(readers := seen.(writerLocked := true));
        if s.PreferWriter() then s'.Goto(t, Claims(Deduct(seen, shared)))
        else s'.Goto(t, Claims(Publish(seen.(writerLocked := true), shared)))
      else s.Goto(t, ContendPc(s.PreferWriter(), s.readers, shared))
    case LoadWriters(seen) =>
      s.Goto(t, Queues(if s.writers.handover then TakeToken(seen, s.writers) else Park, shared))
    case TakeToken(seen, writers) =>
      if s.writers == writers && !flaky then
        s.(writers := SubWaiting(writers).(handover := false)).Goto(t, Owns(TokenReload(shared)))
      else s.Goto(t, ContendPc(s.PreferWriter(), seen, shared))
    case Park =>
      var word := s.writersFutex;
      if !word.phase then s.Goto(t, Queues(Reload, shared))
      else if word.used then s.Goto(t, Queues(Reload, true))
      else s.Goto(t, Queues(Mark(word), shared))
    case Mark(word) =>
      if s.writersFutex == word && !flaky then
        s.(writersFutex := word.(used := true)).Goto(t, Queues(Reload, true))
      else s.Goto(t, Queues(Reload, shared))
    case Reload => s.Goto(t, ContendPc(s.PreferWriter(), s.readers, shared))
  }

  // The inner phase loop: claim the phase while no reader is in, else own or wait.
  function PhasePc(seen: Readers): Pc {
    if seen.count == 0 then Claims(PhaseCas(seen))
    else if seen.writePhase then Owns(StoreWriter)
    else Claims(WriteAwait)
  }

  function StepClaim(s: State, t: nat, claim: Claimed, flaky: bool): State
    requires t in s.locals
  {
    match claim
    case Deduct(seen, shared) =>
      s.(writers := SubWaiting(s.writers)).Goto(t, Claims(Publish(seen.(writerLocked := true), shared)))
    case Publish(seen, shared) =>
      s.(writersFutex := PhaseWord(true, shared)).Goto(t, if seen.writePhase then Owns(StoreWriter) else PhasePc(seen))
    case PhaseCas(seen) =>
      if s.readers == seen && !flaky then
        s.(readers := seen.(writePhase := true)).Goto(t, Owns(StorePhase(seen.writePhase)))
      else s.Goto(t, PhasePc(s.readers))
    case WriteAwait =>
      var word := s.phaseFutex;
      if word.phase then s.Goto(t, Claims(WriteConfirm))
      else if word.used then s
      else s.Goto(t, Claims(WriteAwaitMark(word)))
    case WriteAwaitMark(word) =>
      if s.phaseFutex == word && !flaky then s.(phaseFutex := word.(used := true)).Goto(t, Claims(WriteAwait))
      else s.Goto(t, Claims(WriteAwait))
    case WriteConfirm => s.Goto(t, if s.readers.writePhase then Owns(WriteSettle) else Claims(WriteAwait))
  }

  function StepOwn(s: State, t: nat, own: Owning, flaky: bool): State
    requires t in s.locals
  {
    var l := s.locals[t];
    match own
    case TokenReload(shared) => s.Goto(t, Claims(Publish(s.readers.(writerLocked := true), shared)))
    case StorePhase(already) =>
      s.(phaseFutex := RAISED).Goto(t, if already then Owns(StoreWriter) else Claims(WriteAwait))
    case TryPublish(running) =>
      s.(writersFutex := RAISED).Goto(t, Owns(if running then StoreWriter else StorePhase(true)))
    case WriteSettle =>
      var word := s.phaseFutex;
      if word.phase then s.Goto(t, Owns(StoreWriter))
      else if word.used then s
      else s.Goto(t, Owns(WriteSettleMark(word)))
    case WriteSettleMark(word) =>
      if s.phaseFutex == word && !flaky then s.(phaseFutex := word.(used := true)).Goto(t, Owns(WriteSettle))
      else s.Goto(t, Owns(WriteSettle))
    case StoreWriter => s.(currentWriter := t).Set(t, Returned(l.(writing := true), Ok))
    case Close => s.(writersFutex := RESET).Goto(t, Owns(if s.PreferWriter() then HandLoad else Release))
    case HandLoad => s.Goto(t, Owns(HandPc(s.writers)))
    case HandCas(writers) =>
      if s.writers == writers && !flaky then s.(writers := writers.(handover := true)).Set(t, Returned(l, Ok))
      else s.Goto(t, Owns(HandPc(s.writers)))
    case Release =>
      var r := s.readers;
      s.(readers := r.(writerLocked := false, writePhase := if r.count != 0 then !r.writePhase else r.writePhase))
       .Set(t, if r.count != 0 then l.(pc := Leaves(PhaseReset)) else Returned(l, Ok))
  }

  function HandPc(writers: Writers): Owning {
    if WritersRaw(writers) == 0 then Release else HandCas(writers)
  }

  function StepLeave(s: State, t: nat, leave: Leaving): State
    requires t in s.locals
  {
    var l := s.locals[t];
    match leave
    case UnlockCheck => s.Goto(t, Leaves(if s.currentWriter == t then WriteClear else ReadRelease))
    case ReadRelease =>
      if l.holds == 0 || s.readers.count == 0 then s
      else
        var left := Released(s.readers);
        s.(readers := left)
         .Set(t, LeftPhase(l.(holds := l.holds - 1), left.writePhase))
    case ReadHandOver => s.(phaseFutex := RAISED).Set(t, Returned(l, Ok))
    case WriteClear => s.(currentWriter := 0).Set(t, l.(writing := false, pc := Owns(Close)))
    case PhaseReset => s.(phaseFutex := RESET).Set(t, Returned(l, Ok))
  }

  // A reader that started a write phase still has to announce it.
  function LeftPhase(l: Local, started: bool): Local {
    if started then l.(pc := Leaves(ReadHandOver)) else Returned(l, Ok)
  }

  // The last reader out starts the write phase for a primary writer and frees deferred readers.
  function Released(r: Readers): Readers
    requires r.count > 0
  {
    if r.count > 1 then r.(count := r.count - 1)
    else Readers(r.writePhase || r.writerLocked, r.writerLocked, false, 0)
  }

  // ---------------------------------------------------------------- invariant

  // How many units of the reader count a thread answers for.
  function Share(l: Local): nat { l.holds + if l.pc.Waits? || l.pc.Enters? then 1 else 0 }

  // A writer in the waiting loop whose registration has not been deducted yet.
  function Registered(l: Local): nat {
    if l.pc.Queues? || (l.pc.Claims? && l.pc.claim.Deduct?) then 1 else 0
  }

  function Undoing(l: Local): nat { if l.pc.Waits? && l.pc.wait.ReadUndo? then 1 else 0 }

  // The primary writer: it owns WRLOCKED, whether or not its write phase runs yet.
  predicate Primary(l: Local) { l.writing || l.pc.Claims? || l.pc.Owns? }

  function PrimaryWeight(l: Local): nat { if Primary(l) then 1 else 0 }

  function Seen(claim: Claimed): bool {
    match claim
    case Deduct(seen, _) => seen.writePhase
    case Publish(seen, _) => seen.writePhase
    case PhaseCas(seen) => seen.writePhase
    case _ => false
  }

  // A primary writer that knows the write phase runs.
  predicate Settled(l: Local) { l.writing || l.pc.Owns? || (l.pc.Claims? && Seen(l.pc.claim)) }

  // A reader that has been let in, returned or not.
  predicate Entered(l: Local) { l.holds > 0 || l.pc.Enters? }

  // What the shared words say about one thread.
  predicate RoleOk(s: State, t: nat, l: Local) {
    && t != 0
    && (Entered(l) ==> !s.readers.writePhase)
    && (Primary(l) ==> s.readers.writerLocked && !s.writers.handover)
    && (Settled(l) ==> s.readers.writePhase)
    && (s.currentWriter == t <==> l.writing)
  }

  // What a program point says of the thread's own variables.
  predicate PcOk(prefer: bool, l: Local) {
    && (l.writing ==> l.pc.Idle? || l.pc.Asks? || l.pc.Leaves?)
    && (l.pc.Asks? ==> AskOk(prefer, l.pc.ask, l.writing))
    && (l.pc.Queues? ==> QueueOk(prefer, l.pc.queue))
    && (l.pc.Claims? && l.pc.claim.Deduct? ==> prefer)
    && (l.pc.Claims? && l.pc.claim.PhaseCas? ==> l.pc.claim.seen.count == 0)
    && (l.pc.Owns? ==> (l.pc.own.HandCas? ==> WritersRaw(l.pc.own.writers) != 0 && l.pc.own.writers.waiting < MAX_WAITING)
                       && (l.pc.own.HandLoad? || l.pc.own.HandCas? || l.pc.own.TokenReload? ==> prefer))
    && (l.pc.Leaves? ==> LeaveOk(l.pc.leave, l))
  }

  predicate AskOk(prefer: bool, ask: Asking, writing: bool) {
    && (writing ==> ask.ReadCheck? || ask.TryReadLoad? || ask.TryReadCas? || ask.WriteCheck? || ask.TryWriteClaim?)
    && (ask.WriteRegister? ==> prefer && ask.seen.writerLocked)
    && (ask.ReadDefer? ==> ask.seen.writerLocked)
  }

  predicate QueueOk(prefer: bool, queue: Queued) {
    && (queue.Contend? ==> !queue.seen.writerLocked)
    && (queue.LoadWriters? ==> prefer && queue.seen.writerLocked)
    && (queue.TakeToken? ==> prefer && queue.seen.writerLocked && queue.writers.handover
                             && queue.writers.waiting < MAX_WAITING)
  }

  predicate LeaveOk(leave: Leaving, l: Local) {
    match leave
    case UnlockCheck => l.holds > 0 || l.writing
    case ReadRelease => l.holds > 0 && !l.writing
    case WriteClear => l.writing
    case ReadHandOver | PhaseReset => !l.writing
  }

  predicate LocalOk(s: State, t: nat, l: Local) {
    RoleOk(s, t, l) && PcOk(s.PreferWriter(), l)
  }

  // The words agree with the sums over the threads.
  ghost predicate CountsOk(s: State) {
    && |s.locals| < MAX_THREADS
    && s.readers.count == Sum(s.locals, Share)
    && s.readers.count <= MAX_READERS + Sum(s.locals, Undoing)
    && (if s.PreferWriter() then s.writers.waiting == Sum(s.locals, Registered) else s.writers == Writers(0, false))
  }

  // WRLOCKED has exactly one reason: an outstanding token or the one primary writer.
  ghost predicate OwnershipOk(s: State) {
    && Sum(s.locals, PrimaryWeight) == (if s.readers.writerLocked && !s.writers.handover then 1 else 0)
    && (s.writers.handover ==> s.readers.writerLocked && s.readers.writePhase && s.writers.waiting > 0)
  }

  ghost predicate LocalsOk(s: State) {
    forall t :: t in s.locals ==> LocalOk(s, t, s.locals[t])
  }

  ghost predicate Inv(s: State) {
    CountsOk(s) && OwnershipOk(s) && LocalsOk(s) && (s.currentWriter != 0 ==> s.currentWriter in s.locals)
  }

  // ---------------------------------------------------------------- the invariant is kept

  // What changing one thread's private state does to every sum, and what the sums say of the others.
  lemma Sums(s: State, t: nat, l: Local)
    requires Inv(s) && t in s.locals
    ensures Sum(s.locals[t := l], Share) == Sum(s.locals, Share) - Share(s.locals[t]) + Share(l)
    ensures Sum(s.locals[t := l], Undoing) == Sum(s.locals, Undoing) - Undoing(s.locals[t]) + Undoing(l)
    ensures Sum(s.locals[t := l], Registered) == Sum(s.locals, Registered) - Registered(s.locals[t]) + Registered(l)
    ensures Sum(s.locals[t := l], PrimaryWeight) == Sum(s.locals, PrimaryWeight) - PrimaryWeight(s.locals[t]) + PrimaryWeight(l)
    ensures Share(s.locals[t]) <= s.readers.count
    ensures Sum(s.locals, Undoing) < MAX_THREADS
    ensures Sum(s.locals, Registered) < MAX_THREADS
    ensures Registered(s.locals[t]) <= Sum(s.locals, Registered)
    ensures Undoing(s.locals[t]) <= Sum(s.locals, Undoing)
    ensures |s.locals[t := l]| == |s.locals|
  {
    Update(s.locals, Share, t, l);
    Update(s.locals, Undoing, t, l);
    Update(s.locals, Registered, t, l);
    Update(s.locals, PrimaryWeight, t, l);
    AtMostOneEach(s.locals, Undoing);
    AtMostOneEach(s.locals, Registered);
    assert s.locals[t := l].Keys == s.locals.Keys;
    assert |s.locals[t := l].Keys| == |s.locals.Keys|;
  }

  lemma OnlyPrimary(s: State, t: nat)
    requires Inv(s) && t in s.locals && Primary(s.locals[t])
    ensures forall u :: u in s.locals && u != t ==> !Primary(s.locals[u])
  {
    forall u | u in s.locals && u != t ensures !Primary(s.locals[u]) {
      if Primary(s.locals[u]) { PositiveTwice(s.locals, PrimaryWeight, t, u); }
    }
  }

  lemma NoPrimary(s: State)
    requires Inv(s) && (!s.readers.writerLocked || s.writers.handover)
    ensures forall u :: u in s.locals ==> !Primary(s.locals[u])
  {
    ZeroMeansAllZero(s.locals, PrimaryWeight);
    forall u | u in s.locals ensures !Primary(s.locals[u]) {
      assert PrimaryWeight(s.locals[u]) == 0;
    }
  }

  // Once the count drops to what `t` alone answers for, nobody else has entered.
  lemma OthersOut(s: State, t: nat)
    requires Inv(s) && t in s.locals && s.readers.count == Share(s.locals[t])
    ensures forall u :: u in s.locals && u != t ==> !Entered(s.locals[u])
  {
    forall u | u in s.locals && u != t ensures !Entered(s.locals[u]) {
      Split(s.locals, Share, t);
      assert (s.locals - {t})[u] == s.locals[u];
      ZeroMeansAllZero(s.locals - {t}, Share);
    }
  }

  // The words may change under the other threads only in these ways.
  ghost predicate OthersOk(s: State, s': State, t: nat) {
    forall u :: u in s.locals && u != t ==> RoleOk(s', u, s.locals[u])
  }

  // When the shared words may change under the other threads.
  predicate WordsMove(s: State, s': State, t: nat)
    requires t in s.locals
  {
    var l := s.locals[t];
    && (s'.currentWriter == s.currentWriter || (Primary(l) && (s'.currentWriter == t || s'.currentWriter == 0)))
    && (s'.readers.writePhase && !s.readers.writePhase ==> s.readers.count == Share(l))
    && (!s'.readers.writePhase && s.readers.writePhase ==> Primary(l) || !s.readers.writerLocked)
    && (s.readers.writerLocked && !s.writers.handover && (!s'.readers.writerLocked || s'.writers.handover) ==> Primary(l))
  }

  lemma OthersFit(s: State, s': State, t: nat)
    requires Inv(s) && t in s.locals && WordsMove(s, s', t)
    ensures OthersOk(s, s', t)
  {
    if Primary(s.locals[t]) { OnlyPrimary(s, t); }
    if !s.readers.writerLocked || s.writers.handover { NoPrimary(s); }
    if s.readers.count == Share(s.locals[t]) { OthersOut(s, t); }
  }

  // The words and sums move with thread t's own change from its state to `l`.
  predicate OwnChange(s: State, s': State, t: nat, l: Local)
    requires t in s.locals
  {
    && s'.locals == s.locals[t := l] && s'.kind == s.kind
    && LocalOk(s', t, l)
    && s'.readers.count == s.readers.count - Share(s.locals[t]) + Share(l)
    && (s'.readers.count - Undoing(l) <= s.readers.count - Undoing(s.locals[t]) || s'.readers.count - Undoing(l) <= MAX_READERS)
    && s'.writers.waiting == s.writers.waiting + (if s.PreferWriter() then Registered(l) - Registered(s.locals[t]) else 0)
    && (!s.PreferWriter() ==> !s'.writers.handover)
    && ((if s'.readers.writerLocked && !s'.writers.handover then 1 else 0) - PrimaryWeight(l)
        == (if s.readers.writerLocked && !s.writers.handover then 1 else 0) - PrimaryWeight(s.locals[t]))
    && (s'.writers.handover ==> s'.readers.writerLocked && s'.readers.writePhase && s'.writers.waiting > 0)
    && (s'.currentWriter == s.currentWriter || s'.currentWriter == 0 || s'.currentWriter == t)
  }

  predicate SoundChange(s: State, s': State, t: nat)
    requires t in s.locals
  {
    t in s'.locals && OwnChange(s, s', t, s'.locals[t]) && WordsMove(s, s', t)
  }

  lemma Assemble(s: State, s': State, t: nat, l: Local)
    requires Inv(s) && t in s.locals && OwnChange(s, s', t, l) && WordsMove(s, s', t)
    ensures Inv(s')
  {
    OthersFit(s, s', t);
    Sums(s, t, l);
    assert LocalsOk(s') by {
      forall u | u in s'.locals ensures LocalOk(s', u, s'.locals[u]) {
        if u != t { assert LocalOk(s, u, s.locals[u]); }
      }
    }
  }

  // The facts about the shared words a single thread's step relies on.
  predicate WordsOk(s: State) {
    && (s.writers.handover ==> s.readers.writerLocked && s.readers.writePhase && s.writers.waiting > 0)
    && (!s.PreferWriter() ==> s.writers == Writers(0, false))
    && s.readers.count < 2 * MAX_READERS && s.writers.waiting < MAX_THREADS
  }

  lemma BeginChange(s: State, t: nat, call: Call)
    requires t in s.locals && s.locals[t].pc.Idle? && LocalOk(s, t, s.locals[t]) && WordsOk(s)
    ensures SoundChange(s, Begin(s, t, call), t)
  {}

  lemma ReadCheckChange(s: State, t: nat, ask: Asking, flaky: bool)
    requires t in s.locals && s.locals[t].pc == Asks(ask) && LocalOk(s, t, s.locals[t]) && WordsOk(s)
    requires ask.ReadCheck? || ask.ReadDeferLoad? || ask.ReadDeferWait?
    ensures SoundChange(s, StepAsk(s, t, ask, flaky), t)
  {}

  lemma ReadDeferChange(s: State, t: nat, seen: Readers, flaky: bool)
    requires t in s.locals && s.locals[t].pc == Asks(ReadDefer(seen)) && LocalOk(s, t, s.locals[t]) && WordsOk(s)
    ensures SoundChange(s, StepAsk(s, t, ReadDefer(seen), flaky), t)
  {}

  lemma ReadAddChange(s: State, t: nat, flaky: bool)
    requires t in s.locals && s.locals[t].pc == Asks(ReadAdd) && LocalOk(s, t, s.locals[t]) && WordsOk(s)
    requires s.readers.count + 1 < MAX_COUNT
    ensures SoundChange(s, StepAsk(s, t, ReadAdd, flaky), t)
  {
    assert AddReader(s.readers) == s.readers.(count := s.readers.count + 1);
  }

  lemma TryReadLoadChange(s: State, t: nat, ask: Asking, flaky: bool)
    requires t in s.locals && s.locals[t].pc == Asks(ask) && LocalOk(s, t, s.locals[t]) && WordsOk(s)
    requires ask.TryReadLoad?
    ensures SoundChange(s, StepAsk(s, t, ask, flaky), t)
  {}

  lemma TryReadCasChange(s: State, t: nat, ask: Asking, flaky: bool)
    requires t in s.locals && s.locals[t].pc == Asks(ask) && LocalOk(s, t, s.locals[t]) && WordsOk(s)
    requires ask.TryReadCas?
    ensures SoundChange(s, StepAsk(s, t, ask, flaky), t)
  {}

  lemma TryReadChange(s: State, t: nat, ask: Asking, flaky: bool)
    requires t in s.locals && s.locals[t].pc == Asks(ask) && LocalOk(s, t, s.locals[t]) && WordsOk(s)
    requires ask.TryReadLoad? || ask.TryReadCas?
    ensures SoundChange(s, StepAsk(s, t, ask, flaky), t)
  {
    if ask.TryReadLoad? { TryReadLoadChange(s, t, ask, flaky); }
    else { TryReadCasChange(s, t, ask, flaky); }
  }

  lemma WriteCheckChange(s: State, t: nat, ask: Asking, flaky: bool)
    requires t in s.locals && s.locals[t].pc == Asks(ask) && LocalOk(s, t, s.locals[t]) && WordsOk(s)
    requires ask.WriteCheck? || ask.WriteClaim?
    requires s.readers.count >= Share(s.locals[t])
    ensures SoundChange(s, StepAsk(s, t, ask, flaky), t)
  {}

  lemma WriteRegisterChange(s: State, t: nat, ask: Asking, flaky: bool)
    requires t in s.locals && s.locals[t].pc == Asks(ask) && LocalOk(s, t, s.locals[t]) && WordsOk(s)
    requires ask.WriteRegister? || ask.TryWriteClaim?
    requires s.readers.count >= Share(s.locals[t])
    ensures SoundChange(s, StepAsk(s, t, ask, flaky), t)
  {}

  lemma AskWriteChange(s: State, t: nat, ask: Asking, flaky: bool)
    requires t in s.locals && s.locals[t].pc == Asks(ask) && LocalOk(s, t, s.locals[t]) && WordsOk(s)
    requires ask.WriteCheck? || ask.WriteClaim? || ask.WriteRegister? || ask.TryWriteClaim?
    requires s.readers.count >= Share(s.locals[t])
    ensures SoundChange(s, StepAsk(s, t, ask, flaky), t)
  {
    if ask.WriteCheck? || ask.WriteClaim? { WriteCheckChange(s, t, ask, flaky); }
    else { WriteRegisterChange(s, t, ask, flaky); }
  }

  lemma UndoChange(s: State, t: nat, wait: Counted, flaky: bool)
    requires t in s.locals && s.locals[t].pc == Waits(wait) && LocalOk(s, t, s.locals[t]) && WordsOk(s)
    requires wait.ReadUndo?
    requires s.readers.count >= Share(s.locals[t])
    ensures SoundChange(s, StepWait(s, t, wait, flaky), t)
  {}

  lemma ReadStartChange(s: State, t: nat, wait: Counted, flaky: bool)
    requires t in s.locals && s.locals[t].pc == Waits(wait) && LocalOk(s, t, s.locals[t]) && WordsOk(s)
    requires wait.ReadStart?
    requires s.readers.count >= Share(s.locals[t])
    ensures SoundChange(s, StepWait(s, t, wait, flaky), t)
  {}

  lemma AwaitChange(s: State, t: nat, wait: Counted, flaky: bool)
    requires t in s.locals && s.locals[t].pc == Waits(wait) && LocalOk(s, t, s.locals[t]) && WordsOk(s)
    requires wait.ReadAwait? || wait.ReadAwaitMark? || wait.ReadConfirm?
    requires s.readers.count >= Share(s.locals[t])
    ensures SoundChange(s, StepWait(s, t, wait, flaky), t)
  {}

  lemma WaitChange(s: State, t: nat, wait: Counted, flaky: bool)
    requires t in s.locals && s.locals[t].pc == Waits(wait) && LocalOk(s, t, s.locals[t]) && WordsOk(s)
    requires s.readers.count >= Share(s.locals[t])
    ensures SoundChange(s, StepWait(s, t, wait, flaky), t)
  {
    match wait
    case ReadUndo => UndoChange(s, t, wait, flaky);
    case ReadStart => ReadStartChange(s, t, wait, flaky);
    case _ => AwaitChange(s, t, wait, flaky);
  }

  lemma EnterChange(s: State, t: nat, enter: Admitted, flaky: bool)
    requires t in s.locals && s.locals[t].pc == Enters(enter) && LocalOk(s, t, s.locals[t]) && WordsOk(s)
    ensures SoundChange(s, StepEnter(s, t, enter, flaky), t)
  {}

  lemma ParkChange(s: State, t: nat, queue: Queued, shared: bool, flaky: bool)
    requires t in s.locals && s.locals[t].pc == Queues(queue, shared) && LocalOk(s, t, s.locals[t]) && WordsOk(s)
    requires queue.Contend? || queue.Park?
    ensures SoundChange(s, StepQueue(s, t, queue, shared, flaky), t)
  {}

  lemma MarkChange(s: State, t: nat, queue: Queued, shared: bool, flaky: bool)
    requires t in s.locals && s.locals[t].pc == Queues(queue, shared) && LocalOk(s, t, s.locals[t]) && WordsOk(s)
    requires queue.Mark? || queue.Reload?
    ensures SoundChange(s, StepQueue(s, t, queue, shared, flaky), t)
  {}

  lemma QueueChange(s: State, t: nat, queue: Queued, shared: bool, flaky: bool)
    requires t in s.locals && s.locals[t].pc == Queues(queue, shared) && LocalOk(s, t, s.locals[t]) && WordsOk(s)
    requires queue.Contend? || queue.Park? || queue.Mark? || queue.Reload?
    ensures SoundChange(s, StepQueue(s, t, queue, shared, flaky), t)
  {
    if queue.Contend? || queue.Park? { ParkChange(s, t, queue, shared, flaky); }
    else { MarkChange(s, t, queue, shared, flaky); }
  }

  lemma TokenChange(s: State, t: nat, queue: Queued, shared: bool, flaky: bool)
    requires t in s.locals && s.locals[t].pc == Queues(queue, shared) && LocalOk(s, t, s.locals[t]) && WordsOk(s)
    requires queue.LoadWriters? || queue.TakeToken?
    ensures SoundChange(s, StepQueue(s, t, queue, shared, flaky), t)
  {}

  lemma DeductChange(s: State, t: nat, claim: Claimed, flaky: bool)
    requires t in s.locals && s.locals[t].pc == Claims(claim) && LocalOk(s, t, s.locals[t]) && WordsOk(s)
    requires claim.Deduct?
    requires s.PreferWriter() ==> s.writers.waiting >= Registered(s.locals[t])
    requires s.readers.count >= Share(s.locals[t])
    ensures SoundChange(s, StepClaim(s, t, claim, flaky), t)
  {}

  lemma PublishChange(s: State, t: nat, claim: Claimed, flaky: bool)
    requires t in s.locals && s.locals[t].pc == Claims(claim) && LocalOk(s, t, s.locals[t]) && WordsOk(s)
    requires claim.Publish?
    requires s.PreferWriter() ==> s.writers.waiting >= Registered(s.locals[t])
    requires s.readers.count >= Share(s.locals[t])
    ensures SoundChange(s, StepClaim(s, t, claim, flaky), t)
  {}

  lemma PhaseCasChange(s: State, t: nat, claim: Claimed, flaky: bool)
    requires t in s.locals && s.locals[t].pc == Claims(claim) && LocalOk(s, t, s.locals[t]) && WordsOk(s)
    requires claim.PhaseCas?
    requires s.PreferWriter() ==> s.writers.waiting >= Registered(s.locals[t])
    requires s.readers.count >= Share(s.locals[t])
    ensures SoundChange(s, StepClaim(s, t, claim, flaky), t)
  {}

  lemma ClaimChange(s: State, t: nat, claim: Claimed, flaky: bool)
    requires t in s.locals && s.locals[t].pc == Claims(claim) && LocalOk(s, t, s.locals[t]) && WordsOk(s)
    requires claim.Deduct? || claim.Publish? || claim.PhaseCas?
    requires s.PreferWriter() ==> s.writers.waiting >= Registered(s.locals[t])
    requires s.readers.count >= Share(s.locals[t])
    ensures SoundChange(s, StepClaim(s, t, claim, flaky), t)
  {
    if claim.Deduct? { DeductChange(s, t, claim, flaky); }
    else if claim.Publish? { PublishChange(s, t, claim, flaky); }
    else { PhaseCasChange(s, t, claim, flaky); }
  }

  lemma PhaseWaitChange(s: State, t: nat, claim: Claimed, flaky: bool)
    requires t in s.locals && s.locals[t].pc == Claims(claim) && LocalOk(s, t, s.locals[t]) && WordsOk(s)
    requires claim.WriteAwait? || claim.WriteAwaitMark? || claim.WriteConfirm?
    ensures SoundChange(s, StepClaim(s, t, claim, flaky), t)
  {}

  lemma TakeOverChange(s: State, t: nat, own: Owning, flaky: bool)
    requires t in s.locals && s.locals[t].pc == Owns(own) && LocalOk(s, t, s.locals[t]) && WordsOk(s)
    requires own.TokenReload? || own.StorePhase? || own.TryPublish?
    ensures SoundChange(s, StepOwn(s, t, own, flaky), t)
  {}

  lemma SettleChange(s: State, t: nat, own: Owning, flaky: bool)
    requires t in s.locals && s.locals[t].pc == Owns(own) && LocalOk(s, t, s.locals[t]) && WordsOk(s)
    requires own.WriteSettle? || own.WriteSettleMark? || own.StoreWriter?
    ensures SoundChange(s, StepOwn(s, t, own, flaky), t)
  {}

  lemma HandOverChange(s: State, t: nat, own: Owning, flaky: bool)
    requires t in s.locals && s.locals[t].pc == Owns(own) && LocalOk(s, t, s.locals[t]) && WordsOk(s)
    requires own.Close? || own.HandLoad? || own.HandCas? || own.Release?
    ensures SoundChange(s, StepOwn(s, t, own, flaky), t)
  {}

  lemma OwnStepChange(s: State, t: nat, own: Owning, flaky: bool)
    requires t in s.locals && s.locals[t].pc == Owns(own) && LocalOk(s, t, s.locals[t]) && WordsOk(s)
    ensures SoundChange(s, StepOwn(s, t, own, flaky), t)
  {
    if own.TokenReload? || own.StorePhase? || own.TryPublish? { TakeOverChange(s, t, own, flaky); }
    else if own.WriteSettle? || own.WriteSettleMark? || own.StoreWriter? { SettleChange(s, t, own, flaky); }
    else { HandOverChange(s, t, own, flaky); }
  }

  lemma LeaveChange(s: State, t: nat, leave: Leaving)
    requires t in s.locals && s.locals[t].pc == Leaves(leave) && LocalOk(s, t, s.locals[t]) && WordsOk(s)
    requires s.readers.count >= Share(s.locals[t])
    ensures SoundChange(s, StepLeave(s, t, leave), t)
  {}

  lemma WordsHold(s: State, t: nat)
    requires Inv(s) && t in s.locals
    ensures WordsOk(s) && LocalOk(s, t, s.locals[t])
    ensures s.readers.count >= Share(s.locals[t])
    ensures s.PreferWriter() ==> s.writers.waiting >= Registered(s.locals[t])
    ensures Undoing(s.locals[t]) == 0 ==> s.readers.count + 1 < MAX_COUNT
  {
    Sums(s, t, s.locals[t]);
    Split(s.locals, Undoing, t);
    AtMostOneEach(s.locals - {t}, Undoing);
    assert (s.locals - {t}).Keys == s.locals.Keys - {t};
  }

  lemma StepChange(s: State, m: Move)
    requires Inv(s) && m.tid in s.locals
    ensures SoundChange(s, Step(s, m), m.tid)
  {
    var t := m.tid;
    WordsHold(s, t);
    match s.locals[t].pc
    case Idle => BeginChange(s, t, m.call);
    case Asks(ask) =>
      if ask.TryReadLoad? || ask.TryReadCas? { TryReadChange(s, t, ask, m.flaky); }
      else if ask.WriteCheck? || ask.WriteClaim? || ask.WriteRegister? || ask.TryWriteClaim? { AskWriteChange(s, t, ask, m.flaky); }
      else if ask.ReadAdd? { ReadAddChange(s, t, m.flaky); }
      else if ask.ReadDefer? { ReadDeferChange(s, t, ask.seen, m.flaky); }
      else { ReadCheckChange(s, t, ask, m.flaky); }
    case Waits(wait) => WaitChange(s, t, wait, m.flaky);
    case Enters(enter) => EnterChange(s, t, enter, m.flaky);
    case Queues(queue, shared) =>
      if queue.LoadWriters? || queue.TakeToken? { TokenChange(s, t, queue, shared, m.flaky); }
      else { QueueChange(s, t, queue, shared, m.flaky); }
    case Claims(claim) =>
      if claim.Deduct? || claim.Publish? || claim.PhaseCas? { ClaimChange(s, t, claim, m.flaky); }
      else { PhaseWaitChange(s, t, claim, m.flaky); }
    case Owns(own) => OwnStepChange(s, t, own, m.flaky);
    case Leaves(leave) => LeaveChange(s, t, leave);
  }

  lemma StepKeeps(s: State, m: Move)
    requires Inv(s)
    ensures Inv(Step(s, m))
  {
    if m.tid in s.locals {
      StepChange(s, m);
      Assemble(s, Step(s, m), m.tid, Step(s, m).locals[m.tid]);
    }
  }

  // ---------------------------------------------------------------- every run

  function Start(kind: Kind, threads: set<nat>): State {
    State(kind, Readers(false, false, false, 0), Writers(0, false), RESET, RESET, 0,
          map t | t in threads :: OUTSIDE)
  }

  function Run(s: State, moves: seq<Move>): State {
    if moves == [] then s else Step(Run(s, moves[..|moves| - 1]), moves[|moves| - 1])
  }

  predicate Threads(threads: set<nat>) { 0 !in threads && |threads| < MAX_THREADS }

  lemma StartOk(kind: Kind, threads: set<nat>)
    requires Threads(threads)
    ensures Inv(Start(kind, threads))
  {
    var s := Start(kind, threads);
    assert s.locals.Keys == threads;
    AllZero(s.locals, Share);
    AllZero(s.locals, Undoing);
    AllZero(s.locals, Registered);
    AllZero(s.locals, PrimaryWeight);
  }

  lemma {:induction false} RunKeeps(s: State, moves: seq<Move>)
    requires Inv(s)
    ensures Inv(Run(s, moves))
  {
    if moves != [] {
      RunKeeps(s, moves[..|moves| - 1]);
      StepKeeps(Run(s, moves[..|moves| - 1]), moves[|moves| - 1]);
    }
  }

  // In every state of every interleaving at most one thread holds the write lock, and
  // while one does no thread, itself included, holds a read lock.
  lemma Exclusion(kind: Kind, threads: set<nat>, moves: seq<Move>, t: nat, u: nat)
    requires Threads(threads) && t in threads && u in threads
    ensures var s := Run(Start(kind, threads), moves);
            t in s.locals && u in s.locals
            && (s.locals[t].writing ==> s.locals[u].holds == 0 && (s.locals[u].writing ==> t == u))
  {
    StartOk(kind, threads);
    RunKeeps(Start(kind, threads), moves);
    RunThreads(Start(kind, threads), moves);
    var s := Run(Start(kind, threads), moves);
    assert s.locals.Keys == threads;
    if s.locals[t].writing { OnlyPrimary(s, t); }
    assert LocalOk(s, t, s.locals[t]) && LocalOk(s, u, s.locals[u]);
  }

  lemma {:induction false} RunThreads(s: State, moves: seq<Move>)
    requires Inv(s)
    ensures Run(s, moves).locals.Keys == s.locals.Keys && Run(s, moves).kind == s.kind
  {
    if moves != [] {
      var before := Run(s, moves[..|moves| - 1]);
      RunKeeps(s, moves[..|moves| - 1]);
      RunThreads(s, moves[..|moves| - 1]);
      var m := moves[|moves| - 1];
      if m.tid in before.locals { StepChange(before, m); }
    }
  }

  // `unlock` takes the write branch exactly when the caller is the writer, and otherwise
  // the caller holds a read lock that the count still covers.
  lemma UnlockBranch(kind: Kind, threads: set<nat>, moves: seq<Move>, m: Move)
    requires Threads(threads)
    requires var s := Run(Start(kind, threads), moves);
             m.tid in s.locals && s.locals[m.tid].pc == Leaves(UnlockCheck)
    ensures var s := Run(Start(kind, threads), moves);
            var s' := Step(s, m);
            m.tid in s'.locals
            && (s.locals[m.tid].writing ==> s'.locals[m.tid].pc == Leaves(WriteClear))
            && (!s.locals[m.tid].writing ==>
                s'.locals[m.tid].pc == Leaves(ReadRelease) && s.locals[m.tid].holds > 0 && s.readers.count > 0)
  {
    StartOk(kind, threads);
    RunKeeps(Start(kind, threads), moves);
    var s := Run(Start(kind, threads), moves);
    WordsHold(s, m.tid);
  }

  function Primaries(s: State): set<nat> { set t | t in s.locals && Primary(s.locals[t]) }
  function Waiters(s: State): set<nat> { set t | t in s.locals && Registered(s.locals[t]) == 1 }

  lemma PrimaryCount(s: State)
    ensures |Primaries(s)| == Sum(s.locals, PrimaryWeight)
    ensures |Waiters(s)| == Sum(s.locals, Registered)
  {
    SumOfFlags(s.locals, PrimaryWeight, Primaries(s));
    SumOfFlags(s.locals, Registered, Waiters(s));
  }

  // WRLOCKED is clear with no token and no primary writer, or a token is outstanding and no
  // writer is primary, or there is no token and exactly one primary writer. The waiting count
  // is exactly the registered writers not yet deducted, and never reaches the token's bit.
  lemma TokenAccounting(kind: Kind, threads: set<nat>, moves: seq<Move>)
    requires Threads(threads)
    ensures var s := Run(Start(kind, threads), moves);
            && |Primaries(s)| == (if s.readers.writerLocked && !s.writers.handover then 1 else 0)
            && (s.writers.handover ==> s.readers.writerLocked)
            && s.writers.waiting == (if kind == PreferReader then 0 else |Waiters(s)|)
            && s.writers.waiting + 1 < MAX_WAITING
  {
    StartOk(kind, threads);
    RunKeeps(Start(kind, threads), moves);
    RunThreads(Start(kind, threads), moves);
    var s := Run(Start(kind, threads), moves);
    PrimaryCount(s);
    AtMostOneEach(s.locals, Registered);
  }

  // The reader count is exactly the read locks held plus the readers on their way in or out,
  // and no thread can add itself to a count that would overflow its 29 bits.
  lemma ReaderAccounting(kind: Kind, threads: set<nat>, moves: seq<Move>, t: nat)
    requires Threads(threads) && t in threads
    ensures var s := Run(Start(kind, threads), moves);
            && t in s.locals
            && s.readers.count == Sum(s.locals, Share)
            && (s.locals[t].pc == Asks(ReadAdd) ==> s.readers.count + 1 < MAX_COUNT)
  {
    StartOk(kind, threads);
    RunKeeps(Start(kind, threads), moves);
    RunThreads(Start(kind, threads), moves);
    WordsHold(Run(Start(kind, threads), moves), t);
  }

  function Solo(s: State, t: nat, n: nat): State
    decreases n
  {
    if n == 0 then s else Solo(Step(s, Move(t, Unlock, false)), t, n - 1)
  }

  // Thread `t` has taken the token and is the primary writer after `n` steps of its own.
  predicate Takes(s: State, t: nat, n: nat) {
    var s' := Solo(s, t, n);
    t in s'.locals && s'.locals[t].pc.Owns? && !s'.writers.handover
  }

  predicate Stranded(s: State, t: nat, shared: bool) {
    && t in s.locals && s.locals[t].pc.Queues? && s.locals[t].pc.shared == shared
    && s.writers.handover && s.readers.writerLocked && s.PreferWriter()
  }

  lemma TakesAfterLoad(s: State, t: nat, shared: bool, seen: Readers)
    requires Stranded(s, t, shared) && s.locals[t].pc.queue == LoadWriters(seen)
    ensures Takes(s, t, 2)
  {
    var s1 := Step(s, Move(t, Unlock, false));
    assert s1.locals[t].pc == Queues(TakeToken(seen, s.writers), shared);
    var s2 := Step(s1, Move(t, Unlock, false));
    assert Solo(s, t, 2) == Solo(s1, t, 1) == Solo(s2, t, 0) == s2;
  }

  lemma TakesAfterReload(s: State, t: nat, shared: bool)
    requires Stranded(s, t, shared) && (s.locals[t].pc.queue.Reload? || s.locals[t].pc.queue.Contend?)
    requires QueueOk(true, s.locals[t].pc.queue)
    ensures Takes(s, t, 3)
  {
    var s1 := Step(s, Move(t, Unlock, false));
    TakesAfterLoad(s1, t, shared, s.readers);
    assert Solo(s, t, 3) == Solo(s1, t, 2);
  }

  lemma TakesAfterTake(s: State, t: nat, shared: bool)
    requires Stranded(s, t, shared) && s.locals[t].pc.queue.TakeToken?
    requires QueueOk(true, s.locals[t].pc.queue)
    ensures Takes(s, t, 1) || Takes(s, t, 3)
  {
    var s1 := Step(s, Move(t, Unlock, false));
    if s.locals[t].pc.queue.writers == s.writers {
      assert Solo(s, t, 1) == Solo(s1, t, 0);
    } else {
      TakesAfterLoad(s1, t, shared, s.locals[t].pc.queue.seen);
      assert Solo(s, t, 3) == Solo(s1, t, 2);
    }
  }

  lemma TakesAfterMark(s: State, t: nat, shared: bool)
    requires Stranded(s, t, shared) && s.locals[t].pc.queue.Mark?
    ensures Takes(s, t, 4)
  {
    var s1 := Step(s, Move(t, Unlock, false));
    TakesAfterReload(s1, t, s1.locals[t].pc.shared);
    assert Solo(s, t, 4) == Solo(s1, t, 3);
  }

  lemma TakesAfterPark(s: State, t: nat, shared: bool)
    requires Stranded(s, t, shared) && s.locals[t].pc.queue.Park?
    ensures Takes(s, t, 4) || Takes(s, t, 5)
  {
    var s1 := Step(s, Move(t, Unlock, false));
    if s1.locals[t].pc.queue.Reload? {
      TakesAfterReload(s1, t, s1.locals[t].pc.shared);
      assert Solo(s, t, 4) == Solo(s1, t, 3);
    } else {
      TakesAfterMark(s1, t, shared);
      assert Solo(s, t, 5) == Solo(s1, t, 4);
    }
  }

  // While a token is outstanding some registered writer waits for it, and any waiting writer
  // that runs on its own takes it within five steps and becomes the primary writer.
  lemma TokenIsTaken(s: State, t: nat)
    requires Inv(s) && s.writers.handover
    ensures exists u :: u in s.locals && s.locals[u].pc.Queues?
    ensures t in s.locals && s.locals[t].pc.Queues? ==> exists n: nat :: n <= 5 && Takes(s, t, n)
  {
    Witness(s.locals, Registered);
    var u :| u in s.locals && Registered(s.locals[u]) > 0;
    NoPrimary(s);
    assert s.locals[u].pc.Queues?;
    if t in s.locals && s.locals[t].pc.Queues? {
      assert LocalOk(s, t, s.locals[t]);
      var shared := s.locals[t].pc.shared;
      match s.locals[t].pc.queue
      case LoadWriters(seen) => TakesAfterLoad(s, t, shared, seen);
      case Reload | Contend(_) => TakesAfterReload(s, t, shared);
      case TakeToken(_, _) => TakesAfterTake(s, t, shared);
      case Mark(_) => TakesAfterMark(s, t, shared);
      case Park => TakesAfterPark(s, t, shared);
    }
  }
}
