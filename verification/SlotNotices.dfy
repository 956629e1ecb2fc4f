/** What the summary bits of a span's side channel tell its owner: when a notice is stale, a run
    in which one is, and how many can come while the owner hands nothing out. */
module SlotNotices {
  import opened Tally
  import opened SlotLedger

  // ---------------------------------------------------------------- when a word is empty

  function PendingIn(s: State, k: nat, w: nat): set<nat> { if k < |s.spans| then Word(s.spans[k].remote, w) else {} }

  // The move stores a slot's bit in word `w` of span `k`.
  ghost predicate Stores(s: State, m: Move, k: nat, w: nat) {
    && m.action == StoreWord && Allowed(s, m.tid, m.action)
    && s.threads[m.tid].pc.slot.span == k && s.threads[m.tid].pc.slot.index / BITS == w
  }

  // The move swaps word `w` of span `k` with zero.
  ghost predicate Drains(s: State, m: Move, k: nat, w: nat) {
    && m.action == DrainWord(w) && Allowed(s, m.tid, m.action)
    && s.threads[m.tid].pc.span == k && s.threads[m.tid].pc.pending != {}
  }

  ghost predicate StoresAt(threads: set<nat>, moves: seq<Move>, i: nat, k: nat, w: nat) {
    i < |moves| && Stores(Run(Start(threads), moves[..i]), moves[i], k, w)
  }

  ghost predicate DrainsAt(threads: set<nat>, moves: seq<Move>, i: nat, k: nat, w: nat) {
    i < |moves| && Drains(Run(Start(threads), moves[..i]), moves[i], k, w)
  }

  ghost predicate DrainedAfter(threads: set<nat>, moves: seq<Move>, i: nat, k: nat, w: nat) {
    exists d: nat :: i < d && DrainsAt(threads, moves, d, k, w)
  }

  // Only stores and drains of the word change it.
  lemma WordStep(s: State, m: Move, k: nat, w: nat)
    ensures Stores(s, m, k, w) ==> PendingIn(Step(s, m), k, w) != {}
    ensures Drains(s, m, k, w) ==> PendingIn(Step(s, m), k, w) == {}
    ensures !Stores(s, m, k, w) && !Drains(s, m, k, w) ==> PendingIn(Step(s, m), k, w) == PendingIn(s, k, w)
  {
    if Stores(s, m, k, w) {
      assert s.threads[m.tid].pc.slot.index in PendingIn(Step(s, m), k, w);
    } else if Allowed(s, m.tid, m.action) && m.action.StoreWord? {
      StoreElsewhere(s, m.tid, k, w);
    } else if Allowed(s, m.tid, m.action) && m.action.DrainWord? {
      DrainElsewhere(s, m.tid, m.action.word, k, w);
    } else {
      OtherStep(s, m, k, w);
    }
  }

  lemma StoreElsewhere(s: State, t: nat, k: nat, w: nat)
    requires Allowed(s, t, StoreWord) && !Stores(s, Move(t, StoreWord), k, w)
    ensures PendingIn(Do(s, t, StoreWord), k, w) == PendingIn(s, k, w)
  {}

  lemma DrainElsewhere(s: State, t: nat, v: nat, k: nat, w: nat)
    requires Allowed(s, t, DrainWord(v))
    ensures PendingIn(Do(s, t, DrainWord(v)), k, w) == if Drains(s, Move(t, DrainWord(v)), k, w) then {} else PendingIn(s, k, w)
  {}

  lemma OtherStep(s: State, m: Move, k: nat, w: nat)
    requires Allowed(s, m.tid, m.action) ==> !m.action.StoreWord? && !m.action.DrainWord?
    ensures PendingIn(Step(s, m), k, w) == PendingIn(s, k, w)
  {
    if Allowed(s, m.tid, m.action) {
      match m.action
      case Install | Create(_) | Claim(_, _) | Draw(_) =>
      case Release(_) | StoreSummary | Flush(_) | Drain(_) =>
      case Exit | Abandon(_, _) | Depart | Adopt(_) | StoreOwner =>
    }
  }

  lemma Prefixes(threads: set<nat>, moves: seq<Move>, m: Move, k: nat, w: nat)
    ensures Run(Start(threads), moves + [m]) == Step(Run(Start(threads), moves), m)
    ensures forall i: nat :: i < |moves| ==> (StoresAt(threads, moves + [m], i, k, w) <==> StoresAt(threads, moves, i, k, w))
    ensures forall i: nat :: i < |moves| ==> (DrainsAt(threads, moves + [m], i, k, w) <==> DrainsAt(threads, moves, i, k, w))
    ensures StoresAt(threads, moves + [m], |moves|, k, w) <==> Stores(Run(Start(threads), moves), m, k, w)
    ensures DrainsAt(threads, moves + [m], |moves|, k, w) <==> Drains(Run(Start(threads), moves), m, k, w)
  {
    var more := moves + [m];
    assert more[..|more| - 1] == moves;
    forall i: nat | i < |moves| ensures more[..i] == moves[..i] && more[i] == moves[i] {}
  }

  // Word `w` is empty exactly when each store into it was followed by a drain of it.
  lemma {:induction false} WordEmpty(threads: set<nat>, moves: seq<Move>, k: nat, w: nat)
    ensures PendingIn(Run(Start(threads), moves), k, w) == {} <==>
            forall i: nat :: StoresAt(threads, moves, i, k, w) ==> DrainedAfter(threads, moves, i, k, w)
    decreases |moves|
  {
    if moves != [] {
      var front, m := moves[..|moves| - 1], moves[|moves| - 1];
      assert moves == front + [m];
      WordEmpty(threads, front, k, w);
      Prefixes(threads, front, m, k, w);
      WordStep(Run(Start(threads), front), m, k, w);
      WordEmptyOn(threads, front, m, k, w);
    }
  }

  lemma WordEmptyOn(threads: set<nat>, moves: seq<Move>, m: Move, k: nat, w: nat)
    ensures var more := moves + [m];
            var s := Run(Start(threads), moves);
            (forall i: nat :: StoresAt(threads, more, i, k, w) ==> DrainedAfter(threads, more, i, k, w)) <==>
            (Drains(s, m, k, w)
             || (!Stores(s, m, k, w) && forall i: nat :: StoresAt(threads, moves, i, k, w) ==> DrainedAfter(threads, moves, i, k, w)))
  {
    var more, s := moves + [m], Run(Start(threads), moves);
    Prefixes(threads, moves, m, k, w);
    forall i: nat | i < |moves|
      ensures DrainedAfter(threads, more, i, k, w) <==> Drains(s, m, k, w) || DrainedAfter(threads, moves, i, k, w)
    {
      if DrainedAfter(threads, moves, i, k, w) {
        var d: nat :| i < d && DrainsAt(threads, moves, d, k, w);
        assert DrainsAt(threads, more, d, k, w);
      }
      if Drains(s, m, k, w) { assert DrainsAt(threads, more, |moves|, k, w); }
    }
    assert !DrainedAfter(threads, more, |moves|, k, w);
  }

  // ---------------------------------------------------------------- stale notices

  // Thread `t` stored its bit at move `i` and has done nothing since.
  ghost predicate LastStore(threads: set<nat>, moves: seq<Move>, i: nat, t: nat, k: nat, w: nat) {
    && StoresAt(threads, moves, i, k, w) && moves[i].tid == t
    && forall j: nat :: i < j < |moves| && moves[j].tid == t ==> !Allowed(Run(Start(threads), moves[..j]), t, moves[j].action)
  }

  lemma {:induction false} StoreBefore(threads: set<nat>, moves: seq<Move>, t: nat, k: nat, w: nat) returns (i: nat)
    requires t in Run(Start(threads), moves).threads && Run(Start(threads), moves).threads[t].pc == OrSummary(k, w)
    ensures LastStore(threads, moves, i, t, k, w)
    decreases |moves|
  {
    i := 0;
    if moves != [] {
      var front, m := moves[..|moves| - 1], moves[|moves| - 1];
      var s := Run(Start(threads), front);
      assert moves == front + [m];
      Prefixes(threads, front, m, k, w);
      SummaryStep(s, m, t, k, w);
      if Stores(s, m, k, w) && m.tid == t {
        i := |front|;
      } else {
        i := StoreBefore(threads, front, t, k, w);
        forall j: nat | i < j < |moves| && moves[j].tid == t
          ensures !Allowed(Run(Start(threads), moves[..j]), t, moves[j].action)
        {
          if j < |front| { assert moves[..j] == front[..j]; } else { assert moves[..j] == front; }
        }
      }
    }
  }

  // A thread comes to owe a summary bit by storing in the word, and by nothing else.
  lemma SummaryStep(s: State, m: Move, t: nat, k: nat, w: nat)
    requires t in Step(s, m).threads && Step(s, m).threads[t].pc == OrSummary(k, w)
    ensures t in s.threads
    ensures (Stores(s, m, k, w) && m.tid == t)
            || (s.threads[t].pc == OrSummary(k, w) && (m.tid == t ==> !Allowed(s, t, m.action)))
  {
    if Allowed(s, m.tid, m.action) {
      DueStep(s, m.tid, m.action, k);
      if m.tid == t { SummaryFrom(s, t, m.action, k, w); }
    }
  }

  lemma SummaryFrom(s: State, t: nat, a: Action, k: nat, w: nat)
    requires Allowed(s, t, a) && t in Do(s, t, a).threads && Do(s, t, a).threads[t].pc == OrSummary(k, w)
    ensures Stores(s, Move(t, a), k, w)
  {
    match a
    case StoreWord =>
    case StoreSummary | DrainWord(_) | StoreOwner | Install | Create(_) =>
    case Claim(_, _) | Draw(_) | Release(_) | Flush(_) | Drain(_) =>
    case Exit | Abandon(_, _) | Depart | Adopt(_) =>
  }

  // Just before a freeing thread sets the summary bit, its notice would be stale exactly when
  // every store into the word was followed by a drain, in particular its own. With no other store
  // since its own, that is exactly a drain of the word between the thread's two stores.
  lemma StaleNotice(threads: set<nat>, moves: seq<Move>, t: nat, k: nat, w: nat) returns (own: nat)
    requires t in Run(Start(threads), moves).threads && Run(Start(threads), moves).threads[t].pc == OrSummary(k, w)
    ensures LastStore(threads, moves, own, t, k, w)
    ensures var stale := PendingIn(Run(Start(threads), moves), k, w) == {};
            && (stale <==> forall i: nat :: StoresAt(threads, moves, i, k, w) ==> DrainedAfter(threads, moves, i, k, w))
            && (stale ==> DrainedAfter(threads, moves, own, k, w))
            && ((forall i: nat :: own < i ==> !StoresAt(threads, moves, i, k, w)) ==>
                (stale <==> DrainedAfter(threads, moves, own, k, w)))
  {
    own := StoreBefore(threads, moves, t, k, w);
    WordEmpty(threads, moves, k, w);
    if DrainedAfter(threads, moves, own, k, w) {
      var d: nat :| own < d && DrainsAt(threads, moves, d, k, w);
      forall i: nat | i <= own ensures DrainedAfter(threads, moves, i, k, w) {}
    }
  }

  // ---------------------------------------------------------------- a full span with a stale notice

  ghost predicate Reachable(s: State) { exists moves :: Run(Start({1, 2, 3}), moves) == s }

  lemma Goes(s: State, t: nat, a: Action)
    requires Reachable(s)
    ensures Reachable(Step(s, Move(t, a)))
  {
    var moves :| Run(Start({1, 2, 3}), moves) == s;
    assert (moves + [Move(t, a)])[..|moves|] == moves;
    assert Run(Start({1, 2, 3}), moves + [Move(t, a)]) == Step(s, Move(t, a));
  }

  const A := Slot(0, 0)
  const B := Slot(0, 1)

  // One span of two slots, filed under thread 1, and three threads; the others cache nothing.
  ghost predicate Snap(s: State, used: set<nat>, remote: set<nat>, summary: set<nat>, held: set<Slot>, magazine: set<Slot>,
                       one: Pc, two: Pc, three: Pc)
  {
    && Reachable(s) && |s.spans| == 1 && SpanIs(s.spans[0], used, remote, summary) && s.held == held
    && s.threads.Keys == {1, 2, 3} && s.threads[1].magazine == magazine
    && s.threads[1].heap == Live(1) && s.threads[2].heap == Live(2) && s.threads[3].heap == Live(3)
    && s.threads[1].pc == one && s.threads[2].pc == two && s.threads[3].pc == three
  }

  predicate SpanIs(span: Span, used: set<nat>, remote: set<nat>, summary: set<nat>) {
    span.owner == 1 && span.total == 2 && span.filing == Owned(1) && span.used == used && span.remote == remote && span.summary == summary
  }

  lemma Opens() returns (s: State)
    ensures Snap(s, {}, {}, {}, {}, {}, Idle, Idle, Idle)
  {
    var s0 := Start({1, 2, 3});
    assert Run(s0, []) == s0;
    Goes(s0, 1, Install);
    var s1 := Step(s0, Move(1, Install));
    Goes(s1, 2, Install);
    var s2 := Step(s1, Move(2, Install));
    Goes(s2, 3, Install);
    var s3 := Step(s2, Move(3, Install));
    Goes(s3, 1, Create(2));
    s := Step(s3, Move(1, Create(2)));
  }

  lemma Claims(s: State, summary: set<nat>, two: Pc)
    requires Snap(s, {}, {}, summary, {}, {}, Idle, two, Idle)
    ensures Snap(Step(s, Move(1, Claim(0, {0, 1}))), {0, 1}, {}, summary, {}, {A, B}, Idle, two, Idle)
  {
    Goes(s, 1, Claim(0, {0, 1}));
    assert Allowed(s, 1, Claim(0, {0, 1}));
    var slots := set i | i in {0, 1} :: Slot(0, i);
    assert 0 in {0, 1} && 1 in {0, 1} && slots == {A, B};
    assert s.threads[1].magazine + slots == {A, B};
  }

  lemma DrawsOne(s: State, slot: Slot, held: set<Slot>, magazine: set<Slot>)
    requires Snap(s, {0, 1}, {}, {}, held, magazine, Idle, Idle, Idle) && slot in magazine
    ensures Snap(Step(s, Move(1, Draw(slot))), {0, 1}, {}, {}, held + {slot}, magazine - {slot}, Idle, Idle, Idle)
  {
    Goes(s, 1, Draw(slot));
  }

  lemma Draws(s: State) returns (s': State)
    requires Snap(s, {0, 1}, {}, {}, {}, {A, B}, Idle, Idle, Idle)
    ensures Snap(s', {0, 1}, {}, {}, {A, B}, {}, Idle, Idle, Idle)
  {
    DrawsOne(s, A, {}, {A, B});
    var s1 := Step(s, Move(1, Draw(A)));
    assert {A, B} - {A} == {B} && {} + {A} == {A};
    DrawsOne(s1, B, {A}, {B});
    s' := Step(s1, Move(1, Draw(B)));
  }

  // The blocks passed to threads 2 and 3, which free them.
  lemma Releases(s: State) returns (s': State)
    requires Snap(s, {0, 1}, {}, {}, {A, B}, {}, Idle, Idle, Idle)
    ensures Snap(s', {0, 1}, {}, {}, {}, {}, Idle, OrWord(A), OrWord(B))
  {
    Goes(s, 2, Release(A));
    var s1 := Step(s, Move(2, Release(A)));
    assert {A, B} - {A} == {B};
    assert Snap(s1, {0, 1}, {}, {}, {B}, {}, Idle, OrWord(A), Idle);
    Goes(s1, 3, Release(B));
    s' := Step(s1, Move(3, Release(B)));
  }

  lemma StoresTwo(s: State) returns (s': State)
    requires Snap(s, {0, 1}, {}, {}, {}, {}, Idle, OrWord(A), OrWord(B))
    ensures Snap(s', {0, 1}, {0, 1}, {}, {}, {}, Idle, OrSummary(0, 0), OrSummary(0, 0))
  {
    Goes(s, 2, StoreWord);
    var s1 := Step(s, Move(2, StoreWord));
    assert Snap(s1, {0, 1}, {0}, {}, {}, {}, Idle, OrSummary(0, 0), OrWord(B));
    Goes(s1, 3, StoreWord);
    s' := Step(s1, Move(3, StoreWord));
  }

  // Both store their bits; only thread 3 gets to set the summary.
  lemma StoreBits(s: State) returns (s': State)
    requires Snap(s, {0, 1}, {}, {}, {}, {}, Idle, OrWord(A), OrWord(B))
    ensures Snap(s', {0, 1}, {0, 1}, {0}, {}, {}, Idle, OrSummary(0, 0), Idle)
  {
    var s2 := StoresTwo(s);
    Goes(s2, 3, StoreSummary);
    s' := Step(s2, Move(3, StoreSummary));
  }

  lemma Swaps(s: State, used: set<nat>, remote: set<nat>, magazine: set<Slot>, two: Pc)
    requires Snap(s, used, remote, {}, {}, magazine, Draining(0, {0}), two, Idle) && Word(remote, 0) == remote
    ensures Snap(Step(s, Move(1, DrainWord(0))), used - remote, {}, {}, {}, magazine, Draining(0, {}), two, Idle)
  {
    Goes(s, 1, DrainWord(0));
    assert {0} - {0} == {};
  }

  lemma DrainStarts(s: State, used: set<nat>, remote: set<nat>, magazine: set<Slot>, two: Pc)
    requires Snap(s, used, remote, {0}, {}, magazine, Idle, two, Idle)
    ensures Snap(Step(s, Move(1, Drain(0))), used, remote, {}, {}, magazine, Draining(0, {0}), two, Idle)
  {
    Goes(s, 1, Drain(0));
  }

  lemma DrainEnds(s: State, used: set<nat>, magazine: set<Slot>, two: Pc)
    requires Snap(s, used, {}, {}, {}, magazine, Draining(0, {}), two, Idle)
    ensures Snap(Step(s, Move(1, DrainWord(0))), used, {}, {}, {}, magazine, Idle, two, Idle)
  {
    Goes(s, 1, DrainWord(0));
  }

  // The owner drains its span.
  lemma DrainsAll(s: State, used: set<nat>, remote: set<nat>, magazine: set<Slot>, two: Pc)
    requires Snap(s, used, remote, {0}, {}, magazine, Idle, two, Idle) && Word(remote, 0) == remote
    ensures Snap(Drained(s), used - remote, {}, {}, {}, magazine, Idle, two, Idle)
  {
    DrainStarts(s, used, remote, magazine, two);
    var s1 := Step(s, Move(1, Drain(0)));
    Swaps(s1, used, remote, magazine, two);
    DrainEnds(Step(s1, Move(1, DrainWord(0))), used - remote, magazine, two);
  }

  ghost function Drained(s: State): State { Step(Step(Step(s, Move(1, Drain(0))), Move(1, DrainWord(0))), Move(1, DrainWord(0))) }

  // Up to the owner's drain, with thread 2 still to set its bit.
  lemma StoreInTwoParts() returns (s: State)
    ensures Snap(s, {}, {}, {}, {}, {}, Idle, OrSummary(0, 0), Idle)
  {
    s := Opens();
    Claims(s, {}, Idle);
    s := Draws(Step(s, Move(1, Claim(0, {0, 1}))));
    s := Releases(s);
    s := StoreBits(s);
    assert Word({0, 1}, 0) == {0, 1} && {0, 1} - {0, 1} == {};
    DrainsAll(s, {0, 1}, {0, 1}, {}, OrSummary(0, 0));
    s := Drained(s);
  }

  // A run to a full span whose summary is set although nothing is pending: the owner drained the
  // word and claimed both slots again before thread 2 set the summary bit. Draining it frees nothing.
  lemma FullWithStaleNotice() returns (moves: seq<Move>)
    ensures var s := Run(Start({1, 2, 3}), moves);
            && Snap(s, {0, 1}, {}, {0}, {}, {A, B}, Idle, Idle, Idle)
            && Snap(Drained(s), {0, 1}, {}, {}, {}, {A, B}, Idle, Idle, Idle)
  {
    var s := StoreInTwoParts();
    Claims(s, {}, OrSummary(0, 0));
    s := Step(s, Move(1, Claim(0, {0, 1})));
    Goes(s, 2, StoreSummary);
    s := Step(s, Move(2, StoreSummary));
    moves :| Run(Start({1, 2, 3}), moves) == s;
    assert Word({}, 0) == {} && {0, 1} - {} == {0, 1};
    DrainsAll(s, {0, 1}, {}, {A, B}, Idle);
  }

  // ---------------------------------------------------------------- how many notices can come

  function Due(pc: Pc, k: nat): nat { if (pc.OrWord? && pc.slot.span == k) || (pc.OrSummary? && pc.span == k) then 1 else 0 }

  ghost function DueTo(k: nat): Thread -> nat { (th: Thread) => Due(th.pc, k) }

  function HeldIn(held: set<Slot>, k: nat): set<Slot> { set slot | slot in held && slot.span == k }

  // The span's blocks in the program's hands, and the frees to it that are under way.
  ghost function Outstanding(s: State, k: nat): nat { |HeldIn(s.held, k)| + Sum(s.threads, DueTo(k)) }

  ghost predicate Notifies(s: State, m: Move, k: nat) {
    m.action == StoreSummary && Allowed(s, m.tid, m.action) && s.threads[m.tid].pc.span == k
  }

  // The summary stores to span `k` that a run makes.
  ghost function Notices(s: State, moves: seq<Move>, k: nat): nat {
    if moves == [] then 0
    else Notices(s, moves[..|moves| - 1], k) + if Notifies(Run(s, moves[..|moves| - 1]), moves[|moves| - 1], k) then 1 else 0
  }

  predicate NoDraws(moves: seq<Move>, k: nat) {
    forall i :: 0 <= i < |moves| && moves[i].action.Draw? ==> moves[i].action.slot.span != k
  }

  lemma HeldLess(held: set<Slot>, slot: Slot, k: nat)
    requires slot in held
    ensures |HeldIn(held - {slot}, k)| == |HeldIn(held, k)| - if slot.span == k then 1 else 0
  {
    if slot.span == k { assert HeldIn(held - {slot}, k) == HeldIn(held, k) - {slot}; }
    else { assert HeldIn(held - {slot}, k) == HeldIn(held, k); }
  }

  lemma DueStep(s: State, t: nat, a: Action, k: nat)
    requires Allowed(s, t, a)
    ensures Do(s, t, a).threads == s.threads[t := Do(s, t, a).threads[t]]
    ensures Due(Do(s, t, a).threads[t].pc, k) + (if Notifies(s, Move(t, a), k) then 1 else 0)
         <= Due(s.threads[t].pc, k) + if a.Release? && a.slot.span == k then 1 else 0
  {
    match a
    case Install | Create(_) | Claim(_, _) | Draw(_) | Release(_) =>
    case StoreWord | StoreSummary | Flush(_) =>
    case Drain(_) | DrainWord(_) =>
    case Exit | Abandon(_, _) | Depart | Adopt(_) | StoreOwner =>
  }

  lemma HeldStep(s: State, t: nat, a: Action, k: nat)
    requires Allowed(s, t, a) && (a.Draw? ==> a.slot.span != k)
    ensures |HeldIn(Do(s, t, a).held, k)| + (if a.Release? && a.slot.span == k then 1 else 0) == |HeldIn(s.held, k)|
  {
    match a
    case Draw(slot) => assert HeldIn(s.held + {slot}, k) == HeldIn(s.held, k);
    case Release(slot) => HeldLess(s.held, slot, k);
    case _ => assert Do(s, t, a).held == s.held;
  }

  lemma OutstandingStep(s: State, m: Move, k: nat)
    requires m.action.Draw? ==> m.action.slot.span != k
    ensures Outstanding(Step(s, m), k) + (if Notifies(s, m, k) then 1 else 0) <= Outstanding(s, k)
  {
    if Allowed(s, m.tid, m.action) {
      DueStep(s, m.tid, m.action, k);
      HeldStep(s, m.tid, m.action, k);
      Update(s.threads, DueTo(k), m.tid, Step(s, m).threads[m.tid]);
    }
  }

  // While the program is handed no further block of the span, its summary is set at most once for
  // each block outstanding at the start, whatever the threads do.
  lemma {:induction false} NoticesBounded(s: State, moves: seq<Move>, k: nat)
    requires NoDraws(moves, k)
    ensures Notices(s, moves, k) + Outstanding(Run(s, moves), k) <= Outstanding(s, k)
    decreases |moves|
  {
    if moves != [] {
      NoticesBounded(s, moves[..|moves| - 1], k);
      OutstandingStep(Run(s, moves[..|moves| - 1]), moves[|moves| - 1], k);
    }
  }
}
