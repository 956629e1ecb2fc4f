/** The pthread condition variable: waiters draw tickets and belong to one of two groups;
    signalers, one at a time, hand signals to group one and promote group two when group
    one is used up. `Step` performs one thread's next operation on the shared words. */
module Condvar {
  import opened Arithmetic
  import opened Tally

  const MAX_THREADS: nat := 0x2000_0000

  datatype SignalerLock = Unlocked | Locked | LockedWithWaiters

  /** `group_one_original_size`: the signaler lock in the low bits, the size above. */
  datatype SizeWord = SizeWord(lock: SignalerLock, size: nat)

  /** How far the lock holder has got with an update of several words. */
  datatype Stage = Steady | Owed(signals: nat) | Closed | Flipped | Stored | Sized

  /** What an observer of the whole run knows: the signal words without wrap-around, where
      each group starts, when each signal was delivered (as the ticket count at that
      moment), and which signal each departed waiter is accounted to. */
  datatype History = History(
    counts: Pair,
    bounds: seq<nat>,
    stamps: seq<nat>,
    matched: map<nat, nat>,
    stage: Stage)

  /** The two entries of an array indexed by a slot bit. */
  datatype Pair = Pair(zero: nat, one: nat)
  {
    function At(slot: bool): nat { if slot then one else zero }
    function With(slot: bool, value: nat): Pair { if slot then Pair(zero, value) else Pair(value, one) }
  }

  datatype Shared = Shared(
    slot: bool,
    ticket: nat,
    start: nat,
    sizes: Pair,
    original: SizeWord,
    waiters: nat,
    signals: Pair,
    past: History)
  {
    function One(): bool { !slot }
    function Two(): bool { slot }
    // Group one is number K, [A, B) its tickets; group two, number K + 1, starts at B.
    function K(): nat { if |past.bounds| < 2 then 0 else |past.bounds| - 2 }
    function A(): nat requires |past.bounds| >= 2 { past.bounds[K()] }
    function B(): nat requires |past.bounds| >= 2 { past.bounds[K() + 1] }
    function Delivered(): nat { |past.stamps| }
  }

  // ---------------------------------------------------------------- threads

  /** The waiting loop; `exact` is the unwrapped value behind the loaded word. */
  datatype Await = Load | ReadStart(available: nat, exact: nat) | Take(available: nat, exact: nat)

  datatype LockStep = LockLoad | LockFast(seen: SizeWord) | LockSlow(seen: SizeWord) | LockPark

  /** Under the signaler lock; `next` is the ticket count the signaler observed. */
  datatype Hold =
    | ReadSequence
    | Decide(next: nat)
    | Check(next: nat)
    | AddStart(next: nat)
    | Flip(next: nat)
    | StoreSignals(next: nat, end: nat)
    | SetLoad(next: nat, size: nat)
    | SetCas(next: nat, size: nat, seen: SizeWord)
    | AddSize(next: nat, size: nat)
    | Deliver(next: nat)
    | Count(next: nat)
    | Flush(next: nat)
    | Flushed(next: nat)
    | DeliverAll(next: nat)
    | Zero(next: nat)
    | Release(next: nat)

  /** `position` is the ticket, `group` the number of the group it was drawn for; `before`
      is the number of signals delivered when the lock was taken. */
  datatype Local =
    | Idle
    | Joins(position: nat, slot: bool, group: nat)
    | Awaits(position: nat, slot: bool, group: nat, await: Await)
    | Confirms(position: nat)
    | LoadReferences(broadcast: bool)
    | Locks(broadcast: bool, lock: LockStep)
    | Holds(broadcast: bool, before: nat, hold: Hold)

  datatype State = State(shared: Shared, locals: map<nat, Local>)
  {
    function Become(t: nat, l: Local): State { this.(locals := locals[t := l]) }
  }

  datatype Call = Wait | Signal | Broadcast

  datatype Move = Move(tid: nat, call: Call, flaky: bool)

  // ---------------------------------------------------------------- steps

  function Step(s: State, m: Move): State {
    if m.tid !in s.locals then s
    else
      var (shared, l) := Next(s.shared, s.locals[m.tid], m.call, m.flaky);
      State(shared, s.locals[m.tid := l])
  }

  function Next(s: Shared, l: Local, call: Call, flaky: bool): (Shared, Local) {
    match l
      case Idle => Begin(s, call)
      case Joins(p, slot, group) => (s.(waiters := s.waiters + 1), Awaits(p, slot, group, Load))
      case Awaits(p, slot, group, await) => NextAwait(s, p, slot, group, await, flaky)
      case Confirms(_) => (s.(waiters := if s.waiters == 0 then 0 else s.waiters - 1), Idle)
      case LoadReferences(b) => (s, if s.waiters == 0 then Idle else Locks(b, LockLoad))
      case Locks(b, lock) => NextLock(s, b, lock, flaky)
      case Holds(b, before, hold) => NextHold(s, b, before, hold, flaky)
  }

  function Begin(s: Shared, call: Call): (Shared, Local)
  {
    match call
    case Wait => (s.(ticket := s.ticket + 1), Joins(s.ticket, s.slot, s.K() + 1))
    case Signal => (s, LoadReferences(false))
    case Broadcast => (s, LoadReferences(true))
  }

  // The signed 32-bit comparison of two wrapped counters.
  predicate WrappedAbove(available: nat, start: nat) {
    0 < (available + WORD - start % WORD) % WORD < WORD / 2
  }

  function WrapAdd(word: nat, amount: nat): nat { (word + amount) % WORD }

  // The first number from `from` on that is not in `used`.
  function FirstFree(used: set<nat>, from: nat): nat
    decreases |used|
  {
    if from in used then FirstFree(used - {from}, from + 1) else from
  }

  // Account a departing waiter to a signal of its group that nobody else is accounted to.
  function Depart(s: Shared, position: nat, group: nat): Shared {
    if group >= |s.past.bounds| then s
    else
      var signal := FirstFree(s.past.matched.Values, s.past.bounds[group]);
      s.(past := s.past.(matched := s.past.matched[position := signal]))
  }

  function NextAwait(s: Shared, p: nat, slot: bool, group: nat, await: Await, flaky: bool): (Shared, Local)
  {
    match await
    case Load => (s, Awaits(p, slot, group, ReadStart(s.signals.At(slot), s.past.counts.At(slot))))
    case ReadStart(available, exact) =>
      if p < s.start then (Depart(s, p, group), Confirms(p))
      else if WrappedAbove(available, s.start) then (s, Awaits(p, slot, group, Take(available, exact)))
      else (s, Awaits(p, slot, group, Load))
    case Take(available, exact) =>
      if s.signals.At(slot) == available && !flaky then (TakeOne(s, slot, p, group), Confirms(p))
      else (s, Awaits(p, slot, group, Load))
  }

  function TakeOne(s: Shared, slot: bool, p: nat, group: nat): Shared
  {
    var taken := s.(signals := s.signals.With(slot, WrapAdd(s.signals.At(slot), WORD - 1)));
    var count := if s.past.counts.At(slot) == 0 then 0 else s.past.counts.At(slot) - 1;
    Depart(taken.(past := taken.past.(counts := s.past.counts.With(slot, count))), p, group)
  }

  function SlowStep(seen: SizeWord): LockStep {
    if seen.lock == LockedWithWaiters then LockPark else LockSlow(seen)
  }

  function FastStep(seen: SizeWord): LockStep {
    if seen.lock == Unlocked then LockFast(seen) else SlowStep(seen)
  }

  function NextLock(s: Shared, b: bool, lock: LockStep, flaky: bool): (Shared, Local) {
    match lock
    case LockLoad => (s, Locks(b, FastStep(s.original)))
    case LockFast(seen) =>
      if s.original == seen && !flaky then
        (s.(original := s.original.(lock := Locked)), Holds(b, s.Delivered(), ReadSequence))
      else (s, Locks(b, FastStep(s.original)))
    case LockSlow(seen) =>
      if s.original == seen && !flaky then
        (s.(original := s.original.(lock := LockedWithWaiters)),
         if s.original.lock == Unlocked then Holds(b, s.Delivered(), ReadSequence) else Locks(b, LockPark))
      else (s, Locks(b, SlowStep(s.original)))
    case LockPark => (s, Locks(b, SlowStep(s.original)))
  }

  // Hand `amount` signals to group one.
  function Give(s: Shared, amount: nat): Shared
  {
    var one := s.One();
    s.(signals := s.signals.With(one, WrapAdd(s.signals.At(one), amount)),
       past := s.past.(counts := s.past.counts.With(one, s.past.counts.At(one) + amount),
                       stamps := s.past.stamps + seq(amount, _ => s.ticket),
                       stage := Owed(amount)))
  }

  function Settle(s: Shared, size: nat): Shared
  {
    s.(sizes := s.sizes.With(s.One(), size), past := s.past.(stage := Steady))
  }

  // Is there nobody in group two that group one could inherit? A wrapped 32-bit test.
  predicate NobodyWaits(s: Shared, next: nat)
  {
    var newStart := s.start + s.original.size;
    ((next + WORD - newStart % WORD) % WORD + s.sizes.At(s.Two())) % WORD == 0
  }

  function NextHold(s: Shared, b: bool, before: nat, hold: Hold, flaky: bool): (Shared, Local)
  {
    match hold
    case ReadSequence => (s, Holds(b, before, Decide(s.ticket)))
    case Decide(next) =>
      (s, Holds(b, before, if s.sizes.At(s.One()) == 0 then Check(next) else if b then Flush(next) else Deliver(next)))
    case Check(next) => (s, Holds(b, before, if NobodyWaits(s, next) then Release(next) else AddStart(next)))
    case AddStart(_) | Flip(_) | StoreSignals(_, _) | SetLoad(_, _) | SetCas(_, _, _) | AddSize(_, _) =>
      NextSwitch(s, b, before, hold, flaky)
    case Deliver(next) => (Give(s, 1), Holds(b, before, Count(next)))
    case Count(next) =>
      (Settle(s, WrapAdd(s.sizes.At(s.One()), WORD - 1)), Holds(b, before, Release(next)))
    case Flush(next) => (Give(s, s.sizes.At(s.One())), Holds(b, before, Flushed(next)))
    case Flushed(next) => (Settle(s, 0), Holds(b, before, Check(next)))
    case DeliverAll(next) => (Give(s, s.sizes.At(s.One())), Holds(b, before, Zero(next)))
    case Zero(next) => (Settle(s, 0), Holds(b, before, Release(next)))
    case Release(_) => (s.(original := s.original.(lock := Unlocked)), Idle)
  }

  // `switch_group_one` after its emptiness test.
  function NextSwitch(s: Shared, b: bool, before: nat, hold: Hold, flaky: bool): (Shared, Local)
  {
    match hold
    case AddStart(next) =>
      (s.(start := s.start + s.original.size, past := s.past.(stage := Closed)), Holds(b, before, Flip(next)))
    case Flip(next) =>
      (s.(slot := s.One(), past := s.past.(bounds := s.past.bounds + [s.ticket], stage := Flipped)),
       Holds(b, before, StoreSignals(next, s.ticket)))
    case StoreSignals(next, end) =>
      (s.(signals := s.signals.With(s.One(), s.start % WORD),
          past := s.past.(counts := s.past.counts.With(s.One(), s.start), stage := Stored)),
       Holds(b, before, SetLoad(next, (end + WORD - s.start % WORD) % WORD)))
    case SetLoad(next, size) => SetOriginal(s, b, before, next, size)
    case SetCas(next, size, seen) =>
      if s.original == seen && !flaky then
        (s.(original := s.original.(size := size), past := s.past.(stage := Sized)), Holds(b, before, AddSize(next, size)))
      else SetOriginal(s, b, before, next, size)
    case AddSize(next, size) =>
      var total := WrapAdd(s.sizes.At(s.One()), size);
      (Settle(s, total),
       Holds(b, before, if total == 0 then Release(next) else if b then DeliverAll(next) else Deliver(next)))
    case _ => (s, Holds(b, before, hold))
  }

  // Nothing to store when the size already reads right; otherwise compare-exchange from what was read.
  function SetOriginal(s: Shared, b: bool, before: nat, next: nat, size: nat): (Shared, Local) {
    if s.original.size == size then (s.(past := s.past.(stage := Sized)), Holds(b, before, AddSize(next, size)))
    else (s, Holds(b, before, SetCas(next, size, s.original)))
  }

  // ---------------------------------------------------------------- invariant

  function SlotOf(group: nat): bool { group % 2 == 0 }

  ghost predicate BoundsOk(bounds: seq<nat>) {
    && |bounds| >= 2 && bounds[0] == 0 && bounds[1] == 0
    && (forall i, j :: 1 <= i < j < |bounds| ==> bounds[i] < bounds[j])
    && (forall i, j :: 0 <= i < j < |bounds| && j == i + 1 ==> bounds[j] - bounds[i] < MAX_THREADS)
  }

  // The departed waiters among the tickets from `start` on.
  function Taken(matched: map<nat, nat>, start: nat): set<nat> {
    set p | p in matched && p >= start
  }

  // The last group whose signal word has been set up.
  function Live(s: Shared): nat
  {
    if s.past.stage.Flipped? && s.K() > 0 then s.K() - 1 else s.K()
  }

  predicate Switching(stage: Stage) { stage.Flipped? || stage.Stored? || stage.Sized? }

  ghost predicate ShapeOk(s: Shared) {
    && |s.past.bounds| >= 2
    && s.slot == SlotOf(s.K() + 1)
    && s.A() <= s.B() <= s.ticket && s.B() - s.A() < MAX_THREADS
    && (s.K() >= 1 ==> s.past.bounds[s.K() - 1] <= s.A() < s.past.bounds[s.K() - 1] + MAX_THREADS)
    && s.signals == Pair(s.past.counts.zero % WORD, s.past.counts.one % WORD)
  }

  // Sizes, starts and deliveries: size is original size minus delivered, group two's entry is zero.
  ghost predicate SizesOk(s: Shared)
    requires ShapeOk(s)
  {
    var stage := s.past.stage;
    && (s.original.lock == Unlocked ==> stage == Steady)
    && s.start == (if stage.Closed? then s.B() else s.A())
    && s.A() <= s.Delivered() <= s.B()
    && (stage.Closed? ==> s.Delivered() == s.B() < s.ticket)
    && (Switching(stage) ==> s.Delivered() == s.A() && s.K() > 0 && s.A() < s.B())
    && s.original.size == (if stage.Flipped? || stage.Stored? then s.A() - s.past.bounds[s.K() - 1] else s.B() - s.A())
    && s.sizes.At(s.Two()) == 0
    && s.sizes.At(s.One()) == (if Switching(stage) then 0
                            else if stage.Owed? then s.B() - s.Delivered() + stage.signals
                            else s.B() - s.Delivered())
    && (stage.Owed? ==> stage.signals <= s.Delivered() - s.A())
  }

  // The signal words, without wrap-around: group one's is its start plus deliveries less
  // takes; the other still holds what the previous group left.
  ghost predicate WordsOk(s: Shared)
    requires ShapeOk(s)
  {
    var stage := s.past.stage;
    var one, two := s.past.counts.At(s.One()), s.past.counts.At(s.Two());
    && two <= s.A() && (s.K() >= 1 ==> s.past.bounds[s.K() - 1] <= two)
    && (stage.Flipped? ==> s.K() >= 1 && one <= s.past.bounds[s.K() - 1] && (s.K() >= 2 ==> s.past.bounds[s.K() - 2] <= one))
    && (!stage.Flipped? ==> s.A() <= one <= s.B())
    && (!stage.Flipped? && !stage.Closed? ==> one + |Taken(s.past.matched, s.A())| == s.Delivered())
  }

  // Each departed waiter is accounted to a delivered signal of its own group, delivered after
  // it drew its ticket, and to no signal another waiter is accounted to.
  ghost predicate MatchedOk(bounds: seq<nat>, matched: map<nat, nat>, stamps: seq<nat>) {
    && (forall p :: p in matched ==> matched[p] < |stamps| && p < stamps[matched[p]])
    && (forall p, q :: p in matched && q in matched && p != q ==> matched[p] != matched[q])
    && (forall p, j :: p in matched && 0 <= j < |bounds| ==> (p < bounds[j] <==> matched[p] < bounds[j]))
  }

  // A signal is delivered only after the last ticket of its group was drawn.
  ghost predicate StampsOk(bounds: seq<nat>, stamps: seq<nat>) {
    forall d, i, j :: 0 <= d < |stamps| && 0 <= i < j < |bounds| && j == i + 1 && bounds[i] <= d < bounds[j]
      ==> bounds[j] <= stamps[d]
  }

  ghost predicate PastOk(h: History, ticket: nat) {
    && BoundsOk(h.bounds) && MatchedOk(h.bounds, h.matched, h.stamps) && StampsOk(h.bounds, h.stamps)
    && (forall d :: 0 <= d < |h.stamps| ==> h.stamps[d] <= ticket)
  }

  ghost predicate CoreOk(s: Shared) {
    ShapeOk(s) && SizesOk(s) && WordsOk(s)
  }

  ghost predicate SharedOk(s: Shared) {
    CoreOk(s) && PastOk(s.past, s.ticket)
  }

  function Active(l: Local): nat { if l.Joins? || l.Awaits? then 1 else 0 }
  function Referenced(l: Local): nat { if l.Awaits? || l.Confirms? then 1 else 0 }
  function Holding(l: Local): nat { if l.Holds? then 1 else 0 }

  ghost predicate InGroup(s: Shared, p: nat, slot: bool, group: nat)
    requires ShapeOk(s)
  {
    && 1 <= group <= s.K() + 1 && slot == SlotOf(group)
    && s.past.bounds[group] <= p < s.ticket && (group <= s.K() ==> p < s.past.bounds[group + 1])
    && p !in s.past.matched
  }

  // What a loaded signal word can be, for a waiter whose group is still open: a leftover of the
  // group two before, at most where the group before started, or a count of the waiter's own group.
  ghost predicate AwaitOk(s: Shared, p: nat, group: nat, await: Await)
    requires ShapeOk(s) && 1 <= group <= s.K() + 1
  {
    var bounds := s.past.bounds;
    match await
    case Load => true
    case ReadStart(available, exact) =>
      && available == exact % WORD
      && (s.start <= p ==>
          || (exact <= bounds[group - 1] && (group >= 2 ==> bounds[group - 2] <= exact))
          || (group <= Live(s) && bounds[group] <= exact <= bounds[group + 1]))
    case Take(available, exact) =>
      available == exact % WORD && group <= Live(s) && bounds[group] < exact <= bounds[group + 1]
  }

  ghost predicate HoldOk(s: Shared, b: bool, before: nat, hold: Hold)
    requires ShapeOk(s)
  {
    var stage, done := s.past.stage, s.Delivered();
    match hold
    case ReadSequence => stage == Steady && done == before
    case Decide(next) => stage == Steady && done == before && s.B() <= next <= s.ticket
    case Check(next) => stage == Steady && done == s.B() && s.B() <= next <= s.ticket && (!b ==> done == before)
    case AddStart(next) => stage == Steady && done == s.B() && s.B() < next <= s.ticket && (!b ==> done == before)
    case Flip(next) => stage == Closed && s.B() < next <= s.ticket && (!b ==> done == before)
    case StoreSignals(next, end) => stage == Flipped && s.A() < next <= s.B() && end == s.B() && (!b ==> done == before)
    case SetLoad(next, size) => stage == Stored && s.A() < next <= s.B() && size == s.B() - s.A() && (!b ==> done == before)
    case SetCas(next, size, _) => stage == Stored && s.A() < next <= s.B() && size == s.B() - s.A() && (!b ==> done == before)
    case AddSize(next, size) => stage == Sized && s.A() < next <= s.B() && size == s.B() - s.A() && (!b ==> done == before)
    case Deliver(next) => stage == Steady && !b && done < s.B() && done == before < next
    case Count(next) => stage == Owed(1) && !b && done == before + 1 && before < next
    case Flush(next) => stage == Steady && b && done < s.B() <= next <= s.ticket
    case Flushed(next) => stage.Owed? && b && done == s.B() <= next <= s.ticket
    case DeliverAll(next) => stage == Steady && b && done < s.B() && next <= s.B()
    case Zero(next) => stage.Owed? && b && done == s.B() && next <= s.B()
    case Release(next) =>
      stage == Steady && (if b then next <= done == s.B()
                          else before <= next && done == before + if next > before then 1 else 0)
  }

  ghost predicate LocalOk(s: Shared, l: Local)
    requires ShapeOk(s)
  {
    match l
    case Joins(p, slot, group) => InGroup(s, p, slot, group)
    case Awaits(p, slot, group, await) => InGroup(s, p, slot, group) && AwaitOk(s, p, group, await)
    case Confirms(p) => p in s.past.matched
    case Holds(b, before, hold) => HoldOk(s, b, before, hold)
    case Locks(_, LockFast(seen)) => seen.lock == Unlocked
    case Locks(_, LockSlow(seen)) => seen.lock != LockedWithWaiters
    case _ => true
  }

  function Position(l: Local): nat { if l.Joins? || l.Awaits? then l.position else 0 }

  ghost predicate Distinct(locals: map<nat, Local>) {
    forall t, u :: t in locals && u in locals && t != u && Active(locals[t]) == 1 && Active(locals[u]) == 1
      ==> Position(locals[t]) != Position(locals[u])
  }

  ghost predicate CountsOk(s: Shared, locals: map<nat, Local>) {
    && |locals| < MAX_THREADS
    && s.waiters == Sum(locals, Referenced)
    && s.ticket == |s.past.matched| + Sum(locals, Active)
    && Sum(locals, Holding) == (if s.original.lock == Unlocked then 0 else 1)
  }

  ghost predicate Inv(s: State) {
    && SharedOk(s.shared)
    && CountsOk(s.shared, s.locals)
    && Distinct(s.locals)
    && LocalsOk(s.shared, s.locals)
  }

  // ---------------------------------------------------------------- counting

  // Distinct signals below `n`: the departed cannot outnumber the delivered.
  lemma MatchedSize(m: map<nat, nat>, n: nat)
    requires forall p :: p in m ==> m[p] < n
    requires forall p, q :: p in m && q in m && p != q ==> m[p] != m[q]
    ensures |m| <= n
    decreases n
  {
    if n == 0 {
      assert m.Keys == {};
    } else if p :| p in m && m[p] == n - 1 {
      MatchedSize(m - {p}, n - 1);
      assert (m - {p}).Keys == m.Keys - {p};
      assert |(m - {p}).Keys| == |m.Keys| - 1;
    } else {
      MatchedSize(m, n - 1);
    }
  }

  lemma UnsignalledBound(s: State)
    requires Inv(s)
    ensures s.shared.ticket - s.shared.Delivered() <= Sum(s.locals, Active) <= |s.locals| < MAX_THREADS
  {
    MatchedSize(s.shared.past.matched, s.shared.Delivered());
    AtMostOneEach(s.locals, Active);
  }

  lemma FirstFreeIs(used: set<nat>, from: nat)
    ensures FirstFree(used, from) !in used && FirstFree(used, from) >= from
    ensures forall d :: from <= d < FirstFree(used, from) ==> d in used
    decreases |used|
  {
    if from in used {
      FirstFreeIs(used - {from}, from + 1);
      forall d | from < d < FirstFree(used, from) ensures d in used {
        assert d in used - {from};
      }
    }
  }

  // If fewer than `hi - lo` departed waiters are accounted to signals in [lo, hi), one is free there.
  lemma FreeSignal(m: map<nat, nat>, lo: nat, hi: nat, keys: set<nat>)
    requires lo <= hi && |keys| < hi - lo
    requires forall p :: p in m && lo <= m[p] < hi ==> p in keys
    ensures lo <= FirstFree(m.Values, lo) < hi
    ensures FirstFree(m.Values, lo) !in m.Values
  {
    FirstFreeIs(m.Values, lo);
    if FirstFree(m.Values, lo) >= hi {
      FullRange(m, lo, hi, keys);
    }
  }

  lemma FullRange(m: map<nat, nat>, lo: nat, hi: nat, keys: set<nat>)
    requires lo <= hi
    requires forall d :: lo <= d < hi ==> d in m.Values
    requires forall p :: p in m && lo <= m[p] < hi ==> p in keys
    ensures |keys| >= hi - lo
    decreases hi - lo
  {
    if lo < hi {
      assert hi - 1 in m.Values;
      var p :| p in m && m[p] == hi - 1;
      FullRange(m, lo, hi - 1, keys - {p});
      assert p in keys;
    }
  }

  function Range(lo: nat, hi: nat): (r: set<nat>)
    requires lo <= hi
    ensures |r| == hi - lo
    ensures forall p :: p in r <==> lo <= p < hi
    decreases hi - lo
  {
    if lo == hi then {} else Range(lo, hi - 1) + {hi - 1}
  }

  // ---------------------------------------------------------------- one thread's step

  // How the shared words may move under the other waiters.
  ghost predicate Grows(s: Shared, s': Shared)
    requires ShapeOk(s) && ShapeOk(s')
  {
    && (s'.past.bounds == s.past.bounds || s'.past.bounds == s.past.bounds + [s.ticket])
    && s.ticket <= s'.ticket && s.start <= s'.start && Live(s) <= Live(s')
    && s.past.matched.Keys <= s'.past.matched.Keys
  }

  // What every step leaves alone unless it is the lock holder's.
  predicate Quiet(s: Shared, s': Shared) {
    s'.past.stage == s.past.stage && s'.past.stamps == s.past.stamps && s'.past.bounds == s.past.bounds
    && s'.ticket >= s.ticket
  }

  // What a step of a thread from state `l` to `l'` may do to the shared words.
  ghost predicate Frame(s: Shared, l: Local, s': Shared, l': Local) {
    && ShapeOk(s) && ShapeOk(s') && LocalOk(s', l') && Grows(s, s')
    && (l.Holds? || Quiet(s, s'))
    && Departure(s, l, s', l')
    && (Active(l') == 1 ==> (Active(l) == 1 && Position(l') == Position(l)) || Position(l') == s.ticket)
  }

  predicate Departure(s: Shared, l: Local, s': Shared, l': Local) {
    forall p :: p in s'.past.matched ==> p in s.past.matched || (Active(l) == 1 && Active(l') == 0 && p == Position(l))
  }

  predicate CountsMove(s: Shared, l: Local, s': Shared, l': Local) {
    && s'.waiters == s.waiters - Referenced(l) + Referenced(l')
    && s'.ticket - |s'.past.matched| == s.ticket - |s.past.matched| - Active(l) + Active(l')
    && (if s'.original.lock == Unlocked then 0 else 1) - Holding(l') == (if s.original.lock == Unlocked then 0 else 1) - Holding(l)
  }

  ghost predicate Moves(s: Shared, l: Local, s': Shared, l': Local) {
    Frame(s, l, s', l') && CountsMove(s, l, s', l')
  }

  lemma OtherWaiterKeeps(s: Shared, s': Shared, l: Local)
    requires ShapeOk(s) && ShapeOk(s') && LocalOk(s, l) && Grows(s, s') && !l.Holds?
    requires Active(l) == 1 ==> Position(l) !in s'.past.matched
    ensures LocalOk(s', l)
  {}

  lemma OtherHolderKeeps(s: Shared, s': Shared, l: Local)
    requires ShapeOk(s) && ShapeOk(s') && LocalOk(s, l) && l.Holds? && Quiet(s, s')
    ensures LocalOk(s', l)
  {}

  lemma NoOtherHolder(locals: map<nat, Local>, t: nat, u: nat)
    requires t in locals && u in locals && t != u && locals[t].Holds? && Sum(locals, Holding) <= 1
    ensures !locals[u].Holds?
  {
    if locals[u].Holds? { PositiveTwice(locals, Holding, t, u); }
  }

  ghost predicate LocalsOk(s: Shared, locals: map<nat, Local>)
    requires ShapeOk(s)
  {
    forall t :: t in locals ==> LocalOk(s, locals[t])
  }

  lemma Assemble(s: State, s': State, t: nat, l': Local)
    requires Inv(s) && t in s.locals && s'.locals == s.locals[t := l']
    requires SharedOk(s'.shared) && Moves(s.shared, s.locals[t], s'.shared, l')
    ensures Inv(s')
  {
    AssembleCounts(s.shared, s'.shared, s.locals, t, l');
    AssembleLocals(s.shared, s'.shared, s.locals, t, l');
    AssembleDistinct(s.shared, s'.shared, s.locals, t, l');
  }

  lemma AssembleCounts(s: Shared, s': Shared, locals: map<nat, Local>, t: nat, l': Local)
    requires CountsOk(s, locals) && t in locals && CountsMove(s, locals[t], s', l')
    ensures CountsOk(s', locals[t := l'])
  {
    Update(locals, Referenced, t, l');
    Update(locals, Active, t, l');
    Update(locals, Holding, t, l');
    assert locals[t := l'].Keys == locals.Keys;
    assert |locals[t := l'].Keys| == |locals.Keys|;
  }

  lemma AssembleLocals(s: Shared, s': Shared, locals: map<nat, Local>, t: nat, l': Local)
    requires t in locals && Frame(s, locals[t], s', l') && LocalsOk(s, locals) && Distinct(locals)
    requires Sum(locals, Holding) <= 1
    ensures LocalsOk(s', locals[t := l'])
  {
    forall u | u in locals && u != t ensures LocalOk(s', locals[u]) {
      if locals[t].Holds? { NoOtherHolder(locals, t, u); }
      assert LocalOk(s, locals[u]);
      if locals[u].Holds? { OtherHolderKeeps(s, s', locals[u]); }
      else {
        assert Active(locals[u]) == 1 ==> Position(locals[u]) !in s.past.matched;
        OtherWaiterKeeps(s, s', locals[u]);
      }
    }
  }

  lemma AssembleDistinct(s: Shared, s': Shared, locals: map<nat, Local>, t: nat, l': Local)
    requires t in locals && Frame(s, locals[t], s', l') && LocalsOk(s, locals) && Distinct(locals)
    ensures Distinct(locals[t := l'])
  {
    forall u | u in locals && u != t && Active(locals[u]) == 1 && Active(l') == 1
      ensures Position(locals[u]) != Position(l')
    {
      assert LocalOk(s, locals[u]);
    }
  }
}
