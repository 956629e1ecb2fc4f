/** The recursive stream lock: one word holds the owner's tid in its low 31 bits and a
    waiters mark in the top bit, so claiming the lock and naming its owner are one
    compare-exchange. `Step` performs one thread's next atomic operation. */
module FileLock {
  import opened Arithmetic

  const WAITERS: nat := 0x8000_0000

  datatype LockWord = LockWord(owner: nat, hasWaiters: bool)
  {
    function Contended(): LockWord { this.(hasWaiters := true) }
  }

  const FREE: LockWord := LockWord(0, false)

  function Raw(w: LockWord): nat { w.owner + if w.hasWaiters then WAITERS else 0 }

  function FromRaw(raw: nat): LockWord { LockWord(raw % WAITERS, raw / WAITERS % 2 == 1) }

  lemma RawRoundTrip(w: LockWord)
    requires w.owner < WAITERS
    ensures Raw(w) < WORD && FromRaw(Raw(w)) == w && (Raw(w) == 0 <==> w == FREE)
  {}

  /** The operation a thread performs next. `Load` to `Parked` are the contended loop. */
  datatype Pc =
    | Idle
    | Fast
    | Load
    | Claim
    | Mark(current: LockWord)
    | Sleep(expected: LockWord)
    | Parked
    | Drop
    | Wake

  /** `level` counts this thread's lock calls that returned less its unlock calls. */
  datatype Local = Local(level: nat, pc: Pc)

  datatype Shared = Shared(word: LockWord, recursion: nat)

  datatype State = State(shared: Shared, locals: map<nat, Local>)

  /** An idle thread locks or unlocks; `wake` is the sleeper a futex wake picks. */
  datatype Move = Move(tid: nat, unlock: bool, wake: nat)

  // ---------------------------------------------------------------- steps

  function Step(s: State, m: Move): State {
    if m.tid !in s.locals then s
    else
      var l := s.locals[m.tid];
      var (shared, next) := Next(s.shared, m.tid, l, m.unlock);
      var locals := s.locals[m.tid := next];
      State(shared, if l.pc.Wake? then Rouse(locals, m.wake) else locals)
  }

  function Rouse(locals: map<nat, Local>, t: nat): map<nat, Local> {
    if t in locals && locals[t].pc.Parked? then locals[t := locals[t].(pc := Load)] else locals
  }

  // Only the owner may unlock: other unlock calls are the caller's error.
  function Next(s: Shared, t: nat, l: Local, unlock: bool): (Shared, Local) {
    match l.pc
    case Idle =>
      if !unlock then (s, l.(pc := Fast))
      else if l.level == 0 then (s, l)
      else
        var count := (s.recursion + WORD - 1) % WORD;
        (s.(recursion := count), if count != 0 then l.(level := l.level - 1) else l.(pc := Drop))
    case Fast =>
      if s.word == FREE then (Shared(LockWord(t, false), 1), Local(1, Idle))
      else if s.word.owner == t then (s.(recursion := (s.recursion + 1) % WORD), Local(l.level + 1, Idle))
      else (s, l.(pc := Load))
    case Load =>
      (s, l.(pc := if s.word == FREE then Claim
                   else if s.word.hasWaiters then Sleep(s.word)
                   else Mark(s.word)))
    case Claim =>
      if s.word == FREE then (Shared(LockWord(t, true), 1), Local(1, Idle)) else (s, l.(pc := Load))
    case Mark(current) =>
      if s.word == current then (s.(word := current.Contended()), l.(pc := Sleep(current.Contended())))
      else (s, l.(pc := Load))
    case Sleep(expected) => (s, l.(pc := if s.word == expected then Parked else Load))
    case Parked => (s, l.(pc := Load))
    case Drop => (s.(word := FREE), Local(0, if s.word.hasWaiters then Wake else Idle))
    case Wake => (s, l.(pc := Idle))
  }

  // ---------------------------------------------------------------- ownership

  predicate PcOk(l: Local) {
    match l.pc
    case Idle => true
    case Fast => true
    case Drop => l.level >= 1
    case Mark(current) => l.level == 0 && current != FREE && !current.hasWaiters
    case Sleep(expected) => l.level == 0 && expected.hasWaiters
    case _ => l.level == 0
  }

  predicate LocalOk(s: Shared, t: nat, l: Local) {
    && PcOk(l)
    && (l.level > 0 <==> s.word.owner == t)
    && (l.level > 0 ==> s.recursion == if l.pc.Drop? then 0 else l.level % WORD)
    && (l.pc.Drop? ==> l.level % WORD == 1)
  }

  ghost predicate Inv(s: State) {
    && (s.shared.word.owner == 0 ==> s.shared.word == FREE)
    && s.shared.word.owner < WAITERS
    && (s.shared.word.owner != 0 ==> s.shared.word.owner in s.locals)
    && (forall t :: t in s.locals ==> 0 < t < WAITERS && LocalOk(s.shared, t, s.locals[t]))
  }

  predicate OwnStepOk(s: Shared, s': Shared, t: nat, l': Local) {
    && LocalOk(s', t, l')
    && (s'.word.owner == s.word.owner || (s.word == FREE && s'.word.owner == t) || (s.word.owner == t && s'.word == FREE))
    && (s'.word.owner == 0 ==> s'.word == FREE)
    && (s'.recursion != s.recursion ==> s.word.owner == t || s'.word.owner == t)
  }

  lemma NextOk(s: Shared, t: nat, l: Local, unlock: bool)
    requires LocalOk(s, t, l) && 0 < t && (s.word.owner == 0 ==> s.word == FREE)
    ensures OwnStepOk(s, Next(s, t, l, unlock).0, t, Next(s, t, l, unlock).1)
  {
    LevelWraps(l.level);
  }

  lemma StepKeeps(s: State, m: Move)
    requires Inv(s)
    ensures Inv(Step(s, m))
  {
    if m.tid in s.locals {
      NextOk(s.shared, m.tid, s.locals[m.tid], m.unlock);
    }
  }

  // ---------------------------------------------------------------- sleepers

  // A thread that will wake a sleeper, or load the word again and mark it if it is held.
  predicate Minding(pc: Pc) { pc.Wake? || pc.Load? || pc.Claim? || pc.Mark? }

  ghost predicate Minded(s: State) {
    s.shared.word.hasWaiters || exists u :: u in s.locals && Minding(s.locals[u].pc)
  }

  ghost predicate NoneStranded(s: State) {
    forall t :: t in s.locals && s.locals[t].pc.Parked? ==> Minded(s)
  }

  // A futex wake reaches a sleeper when there is one.
  ghost predicate WakeReaches(s: State, m: Move) {
    (m.tid in s.locals && s.locals[m.tid].pc.Wake? && exists t :: t in s.locals && s.locals[t].pc.Parked?)
    ==> m.wake in s.locals && s.locals[m.wake].pc.Parked?
  }

  lemma StepMinds(s: State, m: Move)
    requires Inv(s) && NoneStranded(s) && WakeReaches(s, m)
    ensures NoneStranded(Step(s, m))
  {
    var s' := Step(s, m);
    if m.tid in s.locals {
      var l := s.locals[m.tid];
      forall t | t in s'.locals && s'.locals[t].pc.Parked? ensures Minded(s') {
        if l.pc.Wake? {
          assert t in s.locals && s.locals[t].pc.Parked?;
          assert Minding(s'.locals[m.wake].pc);
        } else if Minding(s'.locals[m.tid].pc) {
        } else if !s'.shared.word.hasWaiters {
          assert t != m.tid && s.locals[t].pc.Parked?;
          var u :| s.shared.word.hasWaiters || (u in s.locals && Minding(s.locals[u].pc));
          assert LocalOk(s.shared, m.tid, l);
          assert u != m.tid && s'.locals[u] == s.locals[u];
        }
      }
    }
  }

  // ---------------------------------------------------------------- runs

  function Start(threads: set<nat>): State {
    State(Shared(FREE, 0), map t | t in threads :: Local(0, Idle))
  }

  function Run(s: State, moves: seq<Move>): State {
    if moves == [] then s else Step(Run(s, moves[..|moves| - 1]), moves[|moves| - 1])
  }

  ghost predicate WakesReach(s: State, moves: seq<Move>) {
    moves != [] ==> WakesReach(s, moves[..|moves| - 1]) && WakeReaches(Run(s, moves[..|moves| - 1]), moves[|moves| - 1])
  }

  lemma {:induction false} RunKeeps(s: State, moves: seq<Move>)
    requires Inv(s)
    ensures Inv(Run(s, moves))
    ensures NoneStranded(s) && WakesReach(s, moves) ==> NoneStranded(Run(s, moves))
  {
    if moves != [] {
      RunKeeps(s, moves[..|moves| - 1]);
      StepKeeps(Run(s, moves[..|moves| - 1]), moves[|moves| - 1]);
      if NoneStranded(s) && WakesReach(s, moves) {
        StepMinds(Run(s, moves[..|moves| - 1]), moves[|moves| - 1]);
      }
    }
  }

  /** The state `s` that some run of some set of threads reaches; tids fit 31 bits. */
  ghost predicate Reached(threads: set<nat>, moves: seq<Move>, s: State) {
    (forall t :: t in threads ==> 0 < t < WAITERS) && s == Run(Start(threads), moves)
  }

  // The word names the one thread whose lock calls outnumber its unlock calls, and the
  // recursion count is that excess, modulo the word size, whenever the holder is between calls.
  lemma OneOwner(threads: set<nat>, moves: seq<Move>, s: State, t: nat, u: nat)
    requires Reached(threads, moves, s) && t in s.locals && u in s.locals
    ensures s.locals[t].level > 0 <==> s.shared.word.owner == t
    ensures s.locals[t].level > 0 && s.locals[u].level > 0 ==> t == u
    ensures s.locals[t].level > 0 && s.locals[t].pc.Idle? ==> s.shared.recursion == s.locals[t].level % WORD
    ensures Raw(s.shared.word) == 0 <==> forall h :: h in s.locals ==> s.locals[h].level == 0
  {
    RunKeeps(Start(threads), moves);
    RawRoundTrip(s.shared.word);
  }

  // The holder's unlock takes one level off, and starts giving the lock up exactly when that
  // was the only level, modulo the word size.
  lemma UnlockTakesOneLevel(threads: set<nat>, moves: seq<Move>, s: State, t: nat, wake: nat)
    requires Reached(threads, moves, s) && t in s.locals && s.locals[t].pc.Idle? && s.locals[t].level > 0
    ensures var l := Step(s, Move(t, true, wake)).locals[t];
            if s.locals[t].level % WORD == 1 then l.pc.Drop?
            else l == Local(s.locals[t].level - 1, Idle)
  {
    RunKeeps(Start(threads), moves);
    LevelWraps(s.locals[t].level);
  }

  // No sleeper is forgotten: the mark is set, or a wake is owed, or an awake contender is in
  // the loop that sets the mark.
  lemma SleepersMinded(threads: set<nat>, moves: seq<Move>, s: State, t: nat)
    requires Reached(threads, moves, s) && WakesReach(Start(threads), moves)
    requires t in s.locals && s.locals[t].pc.Parked?
    ensures s.shared.word.hasWaiters || exists u :: u in s.locals && Minding(s.locals[u].pc)
  {
    RunKeeps(Start(threads), moves);
  }

  // When nobody holds the lock and no thread is in the middle of an operation, nobody sleeps.
  lemma NobodySleepsOnAFreeLock(threads: set<nat>, moves: seq<Move>, s: State, t: nat)
    requires Reached(threads, moves, s) && WakesReach(Start(threads), moves)
    requires forall u :: u in s.locals ==> s.locals[u].level == 0 && (s.locals[u].pc.Idle? || s.locals[u].pc.Parked?)
    requires t in s.locals
    ensures !s.locals[t].pc.Parked?
  {
    RunKeeps(Start(threads), moves);
  }

  /** The lock as the program keeps it: the raw 32-bit word and the holder's recursion count. */
  class StreamLock {
    var word: nat
    var recursion: nat
    var locals: map<nat, Local>

    ghost function Snapshot(): State
      reads this
    {
      State(Shared(FromRaw(word), recursion), locals)
    }

    ghost predicate Valid()
      reads this
    {
      word == Raw(FromRaw(word)) && Inv(Snapshot())
    }

    constructor (threads: set<nat>)
      requires forall t :: t in threads ==> 0 < t < WAITERS
      ensures Valid() && NoneStranded(Snapshot()) && Snapshot() == Start(threads)
    {
      word, recursion := 0, 0;
      locals := map t | t in threads :: Local(0, Idle);
    }

    method CompareExchange(current: nat, next: nat) returns (ok: bool)
      modifies this`word
      ensures ok == (old(word) == current) && word == if ok then next else old(word)
    {
      ok := word == current;
      if ok { word := next; }
    }

    method Advance(m: Move)
      requires Valid() && m.tid in locals
      modifies this
      ensures Valid() && Snapshot() == Step(old(Snapshot()), m)
      ensures old(NoneStranded(Snapshot()) && WakeReaches(Snapshot(), m)) ==> NoneStranded(Snapshot())
    {
      StepKeeps(Snapshot(), m);
      if NoneStranded(Snapshot()) && WakeReaches(Snapshot(), m) { StepMinds(Snapshot(), m); }
      Operate(m);
    }

    // The operation itself, whatever the word holds.
    method Operate(m: Move)
      requires word == Raw(FromRaw(word)) && m.tid in locals && 0 < m.tid < WAITERS
      requires PcOk(locals[m.tid])
      modifies this
      ensures word == Raw(FromRaw(word)) && Snapshot() == Step(old(Snapshot()), m)
    {
      var l := locals[m.tid];
      var next;
      match l.pc {
        case Idle => next := BeginCall(l, m.unlock);
        case Fast => next := Lock(m.tid, l);
        case Drop =>
          next := Local(0, if FromRaw(word).hasWaiters then Wake else Idle);
          word := 0;
        case Wake => next := l.(pc := Idle);
        case _ => next := AcquireContended(m.tid, l);
      }
      locals := locals[m.tid := next];
      if l.pc.Wake? { locals := Rouse(locals, m.wake); }
    }

    method BeginCall(l: Local, unlock: bool) returns (next: Local)
      requires l.pc.Idle?
      modifies this`recursion
      ensures forall t :: (Snapshot().shared, next) == Next(old(Snapshot()).shared, t, l, unlock)
    {
      if !unlock { return l.(pc := Fast); }
      if l.level == 0 { return l; }
      recursion := (recursion + WORD - 1) % WORD;
      next := if recursion != 0 then l.(level := l.level - 1) else l.(pc := Drop);
    }

    // The first compare-exchange of `lock` and what its outcome decides.
    method Lock(t: nat, l: Local) returns (next: Local)
      requires l.pc.Fast? && 0 < t < WAITERS && word == Raw(FromRaw(word))
      modifies this`word, this`recursion
      ensures forall unlock :: (Snapshot().shared, next) == Next(old(Snapshot()).shared, t, l, unlock)
      ensures word == Raw(FromRaw(word))
    {
      RawRoundTrip(LockWord(t, false));
      var current := word;
      var ok := CompareExchange(0, t);
      if ok {
        recursion := 1;
        return Local(1, Idle);
      }
      if FromRaw(current).owner == t {
        recursion := (recursion + 1) % WORD;
        return Local(l.level + 1, Idle);
      }
      next := l.(pc := Load);
    }

    method AcquireContended(t: nat, l: Local) returns (next: Local)
      requires l.pc.Load? || l.pc.Claim? || l.pc.Mark? || l.pc.Sleep? || l.pc.Parked?
      requires PcOk(l) && 0 < t < WAITERS && word == Raw(FromRaw(word))
      modifies this`word, this`recursion
      ensures forall unlock :: (Snapshot().shared, next) == Next(old(Snapshot()).shared, t, l, unlock)
      ensures word == Raw(FromRaw(word))
    {
      var current := FromRaw(word);
      RawRoundTrip(current);
      match l.pc
      case Load =>
        next := l.(pc := if word == 0 then Claim else if current.Contended() == current then Sleep(current) else Mark(current));
      case Claim =>
        RawRoundTrip(LockWord(t, true));
        var ok := CompareExchange(0, t + WAITERS);
        if ok { recursion := 1; }
        next := if ok then Local(1, Idle) else l.(pc := Load);
      case Mark(seen) =>
        if current == seen {
          RawRoundTrip(seen.Contended());
          word := Raw(seen.Contended());
        }
        next := l.(pc := if current == seen then Sleep(seen.Contended()) else Load);
      case Sleep(expected) => next := l.(pc := if current == expected then Parked else Load);
      case Parked => next := l.(pc := Load);
    }
  }
}
