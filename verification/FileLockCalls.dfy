/** What a lock or unlock call on the stream lock does to its caller, in any interleaving, and that
    a call nobody stands in the way of comes back. */
module FileLockCalls {
  import opened Arithmetic
  import opened FileLock

  // ---------------------------------------------------------------- one call from start to return

  // What a finished call did to the caller's level.
  predicate Answered(before: nat, unlock: bool, after: nat) {
    after == if !unlock then before + 1 else if before % WORD == 1 then 0 else before - 1
  }

  // The caller in the middle of a call.
  predicate During(before: nat, unlock: bool, l: Local) {
    match l.pc
    case Idle => false
    case Fast => !unlock && l.level == before
    case Load | Claim | Mark(_) | Sleep(_) | Parked => !unlock && before == 0
    case Drop => unlock && before % WORD == 1
    case Wake => unlock && l.level == 0 && before % WORD == 1
  }

  predicate Continues(before: nat, unlock: bool, l: Local) {
    if l.pc.Idle? then Answered(before, unlock, l.level) else During(before, unlock, l)
  }

  lemma BeginContinues(s: Shared, t: nat, l: Local, unlock: bool)
    requires LocalOk(s, t, l) && l.pc.Idle? && (unlock ==> l.level > 0)
    ensures Continues(l.level, unlock, Next(s, t, l, unlock).1)
  {
    LevelWraps(l.level);
  }

  lemma NextContinues(s: Shared, t: nat, before: nat, unlock: bool, l: Local, any: bool)
    requires LocalOk(s, t, l) && 0 < t && During(before, unlock, l)
    ensures Continues(before, unlock, Next(s, t, l, any).1)
  {}

  lemma WokenGoesOn(locals: map<nat, Local>, wake: nat, t: nat, before: nat, unlock: bool)
    requires t in locals && Continues(before, unlock, locals[t])
    ensures t in Rouse(locals, wake) && Continues(before, unlock, Rouse(locals, wake)[t])
  {}

  lemma StepContinues(s: State, m: Move, t: nat, before: nat, unlock: bool)
    requires Inv(s) && t in s.locals && During(before, unlock, s.locals[t])
    ensures t in Step(s, m).locals && Continues(before, unlock, Step(s, m).locals[t])
  {
    if m.tid in s.locals {
      if m.tid == t { NextContinues(s.shared, t, before, unlock, s.locals[t], m.unlock); }
      WokenGoesOn(s.locals[m.tid := Next(s.shared, m.tid, s.locals[m.tid], m.unlock).1], m.wake, t, before, unlock);
    }
  }

  // Thread `t` is inside a call in every state on the way.
  predicate Busies(s: State, moves: seq<Move>, t: nat) {
    forall i :: 0 <= i < |moves| ==> t in Run(s, moves[..i]).locals && !Run(s, moves[..i]).locals[t].pc.Idle?
  }

  lemma {:induction false} CallContinues(s: State, moves: seq<Move>, t: nat, before: nat, unlock: bool)
    requires Inv(s) && t in s.locals && Continues(before, unlock, s.locals[t]) && Busies(s, moves, t)
    ensures t in Run(s, moves).locals && Continues(before, unlock, Run(s, moves).locals[t])
    decreases |moves|
  {
    if moves != [] {
      var front, m := moves[..|moves| - 1], moves[|moves| - 1];
      forall i | 0 <= i < |front| ensures t in Run(s, front[..i]).locals && !Run(s, front[..i]).locals[t].pc.Idle? {
        assert front[..i] == moves[..i];
      }
      CallContinues(s, front, t, before, unlock);
      RunKeeps(s, front);
      assert moves[..|front|] == front;
      StepContinues(Run(s, front), m, t, before, unlock);
    }
  }

  // Any call of any thread: `made` starts it in a reached state, `more` is what all threads do
  // until it returns. A lock call returns one level deeper, whether or not the caller held the
  // lock; an unlock returns one level up, or outside when that was the only level modulo 2^32.
  lemma CallAnswered(threads: set<nat>, moves: seq<Move>, s: State, made: Move, more: seq<Move>)
    requires Reached(threads, moves, s) && made.tid in s.locals && s.locals[made.tid].pc.Idle?
    requires made.unlock ==> s.locals[made.tid].level > 0
    requires Busies(Step(s, made), more, made.tid)
    requires made.tid in Run(Step(s, made), more).locals && Run(Step(s, made), more).locals[made.tid].pc.Idle?
    ensures Answered(s.locals[made.tid].level, made.unlock, Run(Step(s, made), more).locals[made.tid].level)
  {
    RunKeeps(Start(threads), moves);
    StepKeeps(s, made);
    BeginContinues(s.shared, made.tid, s.locals[made.tid], made.unlock);
    CallContinues(Step(s, made), more, made.tid, s.locals[made.tid].level, made.unlock);
  }

  // A holder's lock call is over in two steps, with level and recursion count one higher and the
  // word as it was.
  lemma HolderNests(threads: set<nat>, moves: seq<Move>, s: State, t: nat, any: bool)
    requires Reached(threads, moves, s) && t in s.locals && s.locals[t].pc.Idle? && s.locals[t].level > 0
    ensures var s' := Step(Step(s, Move(t, false, 0)), Move(t, any, 0));
            && s'.shared == Shared(s.shared.word, (s.shared.recursion + 1) % WORD)
            && s'.locals == s.locals[t := Local(s.locals[t].level + 1, Idle)]
  {
    RunKeeps(Start(threads), moves);
    var asked := Step(s, Move(t, false, 0));
    assert asked == State(s.shared, s.locals[t := s.locals[t].(pc := Fast)]);
    assert asked.locals[t := Local(s.locals[t].level + 1, Idle)] == s.locals[t := Local(s.locals[t].level + 1, Idle)];
  }

  // ---------------------------------------------------------------- running alone

  function Solo(s: State, t: nat, n: nat): State
    decreases n
  {
    if n == 0 then s else Solo(Step(s, Move(t, false, 0)), t, n - 1)
  }

  // No other thread holds the lock; what they are in the middle of does not matter.
  ghost predicate Alone(s: State, t: nat) {
    Inv(s) && t in s.locals && (s.shared.word == FREE || s.shared.word.owner == t)
  }

  function Rank(pc: Pc): nat {
    match pc
    case Idle => 0
    case Fast => 1
    case Load => 2
    case Claim => 1
    case Mark(_) => 3
    case Sleep(_) => 3
    case Parked => 3
    case Drop => 2
    case Wake => 1
  }

  lemma AloneStep(s: State, t: nat)
    requires Alone(s, t) && !s.locals[t].pc.Idle?
    ensures var s' := Step(s, Move(t, false, 0)); Alone(s', t) && Rank(s'.locals[t].pc) < Rank(s.locals[t].pc)
  {
    StepKeeps(s, Move(t, false, 0));
    assert LocalOk(s.shared, t, s.locals[t]);
  }

  predicate Ends(s: State, t: nat, n: nat, before: nat, unlock: bool) {
    var s' := Solo(s, t, n);
    t in s'.locals && s'.locals[t].pc.Idle? && Answered(before, unlock, s'.locals[t].level)
  }

  // While nobody else holds the lock, a thread anywhere in its call comes back within three steps
  // of its own.
  lemma {:induction false} AloneReturns(s: State, t: nat, before: nat, unlock: bool) returns (n: nat)
    requires Alone(s, t) && Continues(before, unlock, s.locals[t])
    ensures n <= 3 && n <= Rank(s.locals[t].pc) && Ends(s, t, n, before, unlock)
    decreases Rank(s.locals[t].pc)
  {
    if s.locals[t].pc.Idle? {
      n := 0;
    } else {
      var s' := Step(s, Move(t, false, 0));
      AloneStep(s, t);
      StepContinues(s, Move(t, false, 0), t, before, unlock);
      n := AloneReturns(s', t, before, unlock);
      n := n + 1;
      assert Solo(s, t, n) == Solo(s', t, n - 1);
    }
  }
}
