/** The condition variable as the program keeps it: packed words and two two-entry arrays,
    changed by one atomic operation at a time. Each method is one such operation of one
    thread and is proved to be the corresponding step of the protocol in module `Condvar`. */
module CondvarWords {
  import opened Arithmetic
  import opened Tally
  import opened Condvar
  import opened CondvarSteps
  import opened CondvarRuns

  function LockBits(lock: SignalerLock): nat {
    match lock
    case Unlocked => 0
    case Locked => 1
    case LockedWithWaiters => 2
  }

  function SizeRaw(word: SizeWord): nat { LockBits(word.lock) + 4 * word.size }

  // Every word reads as in a condition variable nobody has used.
  predicate Unused(s: Shared) {
    && s.ticket == s.start == s.waiters == 0 && !s.slot && s.sizes == Pair(0, 0) && s.signals == Pair(0, 0)
    && s.original == SizeWord(Unlocked, 0)
  }

  lemma FreshUnused()
    ensures Unused(Fresh())
  {}

  function Index(slot: bool): nat { if slot then 1 else 0 }

  class PthreadCond {
    var waitSequence: nat
    var groupOneStart: nat
    const groupSizes: array<nat>
    var originalSize: nat
    var waiterReferences: nat
    const groupSignals: array<nat>
    // The clock and process-shared bits, below the waiter count.
    const attributes: nat
    var locals: map<nat, Local>
    // The observer's record of the run; the words and the threads' choices never depend on it.
    var model: State

    ghost predicate Packed()
      reads this, groupSizes, groupSignals
    {
      && groupSizes.Length == 2 && groupSignals.Length == 2 && groupSizes != groupSignals && attributes < 4
      && locals == model.locals
      && waitSequence == 2 * model.shared.ticket + Index(model.shared.slot)
      && groupOneStart == model.shared.start
      && groupSizes[0] == model.shared.sizes.zero && groupSizes[1] == model.shared.sizes.one
      && originalSize == SizeRaw(model.shared.original)
      && waiterReferences == attributes + 8 * model.shared.waiters
      && groupSignals[0] == model.shared.signals.zero && groupSignals[1] == model.shared.signals.one
    }

    ghost predicate Valid()
      reads this, groupSizes, groupSignals
    {
      Packed() && Inv(model)
    }

    // A condition variable nobody has used. It is valid when the run starts within the invariant,
    // as `CondvarRuns.StartOk` shows of fewer than 2^29 idle threads.
    constructor (initial: State, attributes: nat)
      requires Unused(initial.shared) && attributes < 4
      ensures Packed() && model == initial && fresh(groupSizes) && fresh(groupSignals)
    {
      this.attributes := attributes;
      waitSequence, groupOneStart, originalSize, waiterReferences := 0, 0, 0, attributes;
      locals, model := initial.locals, initial;
      groupSizes := new nat[2];
      groupSignals := new nat[2];
      new;
      groupSizes[0], groupSizes[1] := 0, 0;
      groupSignals[0], groupSignals[1] := 0, 0;
    }

    // One thread's next operation, anywhere in wait, signal and broadcast, keeps the invariant.
    method Advance(m: Move)
      requires Valid() && m.tid in locals && Timely(model, m)
      modifies this, groupSizes, groupSignals
      ensures Valid() && model == Step(old(model), m)
    {
      StepKeeps(model, m);
      Perform(m);
    }

    // On the words alone, whatever they hold: the operation is the protocol's step.
    method Perform(m: Move)
      requires Packed() && m.tid in locals
      modifies this, groupSizes, groupSignals
      ensures Packed() && model == Step(old(model), m)
    {
      var l := Operate(locals[m.tid], m.call, m.flaky);
      locals := locals[m.tid := l];
      model := model.(locals := locals);
    }

    // One operation of a thread whose private state is `start`.
    method Operate(start: Local, call: Call, flaky: bool) returns (l: Local)
      requires Packed()
      modifies this, groupSizes, groupSignals
      ensures Did(Next(old(model.shared), start, call, flaky), l)
    {
      match start
      case Idle => l := Call(call);
      case Joins(p, slot, group) =>
        AddReference();
        l := Awaits(p, slot, group, Load);
      case Awaits(p, slot, group, await) => l := WaitLoop(p, slot, group, await, flaky);
      case Confirms(_) =>
        DropReference();
        l := Idle;
      case LoadReferences(b) => l := if waiterReferences / 8 == 0 then Idle else Locks(b, LockLoad);
      case Locks(b, lock) => l := AcquireLock(b, lock, flaky);
      case Holds(b, before, hold) =>
        if hold.AddStart? || hold.Flip? || hold.StoreSignals? || hold.SetLoad? || hold.SetCas? || hold.AddSize? {
          l := SwitchGroupOne(b, before, hold, flaky);
        } else { l := SignalGroupOne(b, before, hold, flaky); }
    }

    // The state between an operation on the shared words and the thread's own bookkeeping.
    twostate predicate Did(result: (Shared, Local), l: Local)
      reads this, groupSizes, groupSignals
    {
      Packed() && locals == old(locals) && model == old(model).(shared := result.0) && l == result.1
    }

    method Call(call: Call) returns (l: Local)
      requires Packed()
      modifies this
      ensures Did(Begin(old(model.shared), call), l)
    {
      match call
      case Wait =>
        l := Joins(waitSequence / 2, waitSequence % 2 == 1, model.shared.K() + 1);
        waitSequence := waitSequence + 2;
        model := model.(shared := model.shared.(ticket := model.shared.ticket + 1));
      case Signal => l := LoadReferences(false);
      case Broadcast => l := LoadReferences(true);
    }

    method AddReference()
      requires Packed()
      modifies this
      ensures Packed() && locals == old(locals)
      ensures model == old(model).(shared := old(model.shared).(waiters := old(model.shared).waiters + 1))
    {
      waiterReferences := waiterReferences + 8;
      model := model.(shared := model.shared.(waiters := model.shared.waiters + 1));
    }

    method DropReference()
      requires Packed()
      modifies this
      ensures Packed() && locals == old(locals)
      ensures var waiters := old(model.shared).waiters;
              model == old(model).(shared := old(model.shared).(waiters := if waiters == 0 then 0 else waiters - 1))
    {
      if waiterReferences >= 8 {
        waiterReferences := waiterReferences - 8;
        model := model.(shared := model.shared.(waiters := model.shared.waiters - 1));
      }
    }

    method SizeWordNow() returns (word: SizeWord)
      requires Packed()
      ensures word == model.shared.original
    {
      var bits := originalSize % 4;
      word := SizeWord(if bits == 0 then Unlocked else if bits == 1 then Locked else LockedWithWaiters, originalSize / 4);
    }

    method StoreSize(word: SizeWord)
      requires Packed()
      modifies this
      ensures Packed() && locals == old(locals)
      ensures model == old(model).(shared := old(model.shared).(original := word))
    {
      originalSize := SizeRaw(word);
      model := model.(shared := model.shared.(original := word));
    }

    method WaitLoop(p: nat, slot: bool, group: nat, await: Await, flaky: bool) returns (l: Local)
      requires Packed()
      modifies this, groupSignals
      ensures Did(NextAwait(old(model.shared), p, slot, group, await, flaky), l)
    {
      var signals := groupSignals[Index(slot)];
      match await
      case Load => l := Awaits(p, slot, group, ReadStart(signals, model.shared.past.counts.At(slot)));
      case ReadStart(available, exact) =>
        if p < groupOneStart {
          model := model.(shared := Depart(model.shared, p, group));
          l := Confirms(p);
        } else if 0 < (available + WORD - groupOneStart % WORD) % WORD < WORD / 2 {
          l := Awaits(p, slot, group, Take(available, exact));
        } else { l := Awaits(p, slot, group, Load); }
      case Take(available, _) =>
        if signals == available && !flaky {
          groupSignals[Index(slot)] := (signals + WORD - 1) % WORD;
          model := model.(shared := TakeOne(model.shared, slot, p, group));
          l := Confirms(p);
        } else { l := Awaits(p, slot, group, Load); }
    }

    method AcquireLock(b: bool, lock: LockStep, flaky: bool) returns (l: Local)
      requires Packed()
      modifies this
      ensures Did(NextLock(old(model.shared), b, lock, flaky), l)
    {
      var state := SizeWordNow();
      match lock
      case LockLoad => l := Locks(b, FastStep(state));
      case LockFast(seen) =>
        if state == seen && !flaky {
          StoreSize(state.(lock := Locked));
          l := Holds(b, model.shared.Delivered(), ReadSequence);
        } else { l := Locks(b, FastStep(state)); }
      case LockSlow(seen) =>
        if state == seen && !flaky {
          StoreSize(state.(lock := LockedWithWaiters));
          l := if state.lock == Unlocked then Holds(b, model.shared.Delivered(), ReadSequence) else Locks(b, LockPark);
        } else { l := Locks(b, SlowStep(state)); }
      case LockPark => l := Locks(b, SlowStep(state));
    }

    // Group one is the slot the sequence word does not name.
    method SignalGroupOne(b: bool, before: nat, hold: Hold, flaky: bool) returns (l: Local)
      requires Packed()
      requires !hold.AddStart? && !hold.Flip? && !hold.StoreSignals? && !hold.SetLoad? && !hold.SetCas? && !hold.AddSize?
      modifies this, groupSizes, groupSignals
      ensures Did(NextHold(old(model.shared), b, before, hold, flaky), l)
    {
      var one := 1 - waitSequence % 2;
      match hold
      case ReadSequence => l := Holds(b, before, Decide(waitSequence / 2));
      case Decide(next) =>
        l := Holds(b, before, if groupSizes[one] == 0 then Check(next) else if b then Flush(next) else Deliver(next));
      case Check(next) =>
        var state := SizeWordNow();
        var newStart := groupOneStart + state.size;
        var unaccounted := (next + WORD - newStart % WORD) % WORD;
        l := Holds(b, before, if (unaccounted + groupSizes[1 - one]) % WORD == 0 then Release(next) else AddStart(next));
      case Deliver(next) =>
        AddSignals(one, 1);
        l := Holds(b, before, Count(next));
      case Count(next) =>
        StoreGroupSize(one, (groupSizes[one] + WORD - 1) % WORD);
        l := Holds(b, before, Release(next));
      case Flush(next) =>
        AddSignals(one, groupSizes[one]);
        l := Holds(b, before, Flushed(next));
      case Flushed(next) =>
        StoreGroupSize(one, 0);
        l := Holds(b, before, Check(next));
      case DeliverAll(next) =>
        AddSignals(one, groupSizes[one]);
        l := Holds(b, before, Zero(next));
      case Zero(next) =>
        StoreGroupSize(one, 0);
        l := Holds(b, before, Release(next));
      case Release(_) =>
        var state := SizeWordNow();
        StoreSize(state.(lock := Unlocked));
        l := Idle;
    }

    method AddSignals(one: nat, amount: nat)
      requires Packed() && one == Index(model.shared.One())
      modifies this, groupSignals
      ensures Packed() && locals == old(locals)
      ensures model == old(model).(shared := Give(old(model.shared), amount))
    {
      groupSignals[one] := (groupSignals[one] + amount) % WORD;
      model := model.(shared := Give(model.shared, amount));
    }

    method StoreGroupSize(one: nat, size: nat)
      requires Packed() && one == Index(model.shared.One())
      modifies this, groupSizes
      ensures Packed() && locals == old(locals)
      ensures model == old(model).(shared := Settle(old(model.shared), size))
    {
      groupSizes[one] := size;
      model := model.(shared := Settle(model.shared, size));
    }

    method SwitchGroupOne(b: bool, before: nat, hold: Hold, flaky: bool) returns (l: Local)
      requires Packed()
      requires hold.AddStart? || hold.Flip? || hold.StoreSignals? || hold.SetLoad? || hold.SetCas? || hold.AddSize?
      modifies this, groupSizes, groupSignals
      ensures Did(NextHold(old(model.shared), b, before, hold, flaky), l)
    {
      if hold.SetLoad? || hold.SetCas? || hold.AddSize? {
        l := SetOriginalSize(b, before, hold, flaky);
        return;
      }
      var one := 1 - waitSequence % 2;
      match hold {
      case AddStart(next) =>
        var state := SizeWordNow();
        groupOneStart := groupOneStart + state.size;
        l := Holds(b, before, Flip(next));
      case Flip(next) =>
        l := Holds(b, before, StoreSignals(next, waitSequence / 2));
        waitSequence := waitSequence - waitSequence % 2 + one;
      case StoreSignals(next, end) =>
        groupSignals[one] := groupOneStart % WORD;
        l := Holds(b, before, SetLoad(next, (end + WORD - groupOneStart % WORD) % WORD));
      }
      RecordSwitch(b, before, hold, flaky);
    }

    // The size of the new group one: stored beside the lock bits, then added to the group's entry.
    method SetOriginalSize(b: bool, before: nat, hold: Hold, flaky: bool) returns (l: Local)
      requires Packed() && (hold.SetLoad? || hold.SetCas? || hold.AddSize?)
      modifies this, groupSizes
      ensures Did(NextHold(old(model.shared), b, before, hold, flaky), l)
    {
      var state := SizeWordNow();
      match hold {
      case SetLoad(next, size) =>
        l := Holds(b, before, if state.size == size then AddSize(next, size) else SetCas(next, size, state));
      case SetCas(next, size, seen) =>
        if state == seen && !flaky {
          originalSize := SizeRaw(state.(size := size));
          l := Holds(b, before, AddSize(next, size));
        } else { l := Holds(b, before, if state.size == size then AddSize(next, size) else SetCas(next, size, state)); }
      case AddSize(next, size) =>
        var one := 1 - waitSequence % 2;
        var total := (groupSizes[one] + size) % WORD;
        groupSizes[one] := total;
        l := Holds(b, before, if total == 0 then Release(next) else if b then DeliverAll(next) else Deliver(next));
      }
      RecordSwitch(b, before, hold, flaky);
    }

    // The observer notes the switch step just made on the words.
    method RecordSwitch(b: bool, before: nat, hold: Hold, flaky: bool)
      modifies this`model
      ensures model == old(model).(shared := NextSwitch(old(model.shared), b, before, hold, flaky).0)
    {
      model := model.(shared := NextSwitch(model.shared, b, before, hold, flaky).0);
    }
  }
}
