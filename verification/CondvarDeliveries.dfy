/** Signals and waiters counted against each other: a waiter may leave exactly while fewer
    waiters have left than signals were delivered. */
module CondvarDeliveries {
  import opened Tally
  import opened Condvar
  import opened CondvarSteps
  import opened CondvarRuns

  function Inside(locals: map<nat, Local>): set<nat> { set t | t in locals && Active(locals[t]) == 1 }

  function Positions(locals: map<nat, Local>, inside: set<nat>): set<nat>
    requires inside <= locals.Keys
  {
    set t | t in inside :: Position(locals[t])
  }

  lemma {:induction false} PositionsSize(locals: map<nat, Local>, inside: set<nat>)
    requires Distinct(locals) && inside <= Inside(locals)
    ensures |Positions(locals, inside)| == |inside|
    decreases |inside|
  {
    if inside == {} {
      assert Positions(locals, inside) == {};
    } else {
      var t :| t in inside;
      PositionsSize(locals, inside - {t});
      assert Positions(locals, inside) == Positions(locals, inside - {t}) + {Position(locals[t])};
      assert Position(locals[t]) !in Positions(locals, inside - {t});
    }
  }

  // Two disjoint sets below `n` with `n` elements between them leave nothing out.
  lemma FillsRange(here: set<nat>, gone: set<nat>, n: nat, p: nat)
    requires here !! gone && |here| + |gone| == n && p < n
    requires forall q :: q in here || q in gone ==> q < n
    ensures p in here || p in gone
  {
    if p !in here && p !in gone {
      assert |here + gone| == n;
      SubsetSize(here + gone, Range(0, n) - {p});
    }
  }

  lemma InsideFacts(s: State)
    requires Inv(s)
    ensures var here := Positions(s.locals, Inside(s.locals));
            |here| + |s.shared.past.matched.Keys| == s.shared.ticket && here !! s.shared.past.matched.Keys
    ensures forall q :: q in Positions(s.locals, Inside(s.locals)) || q in s.shared.past.matched ==> q < s.shared.ticket
  {
    PositionsSize(s.locals, Inside(s.locals));
    SumOfFlags(s.locals, Active, Inside(s.locals));
    forall q | q in Positions(s.locals, Inside(s.locals)) ensures q < s.shared.ticket && q !in s.shared.past.matched {
      var t :| t in Inside(s.locals) && Position(s.locals[t]) == q;
      InsideHolds(s, t);
    }
    DepartedBelow(s.shared.past, s.shared.ticket);
  }

  lemma InsideHolds(s: State, t: nat)
    requires Inv(s) && t in s.locals && Active(s.locals[t]) == 1
    ensures Position(s.locals[t]) < s.shared.ticket && Position(s.locals[t]) !in s.shared.past.matched
  {
    assert LocalOk(s.shared, s.locals[t]);
  }

  lemma DepartedBelow(h: History, ticket: nat)
    requires PastOk(h, ticket)
    ensures forall p :: p in h.matched ==> p < ticket
  {}

  // Every ticket drawn is that of a departed waiter or of one still inside.
  lemma TicketHolder(s: State, p: nat) returns (u: nat)
    requires Inv(s) && p < s.shared.ticket && p !in s.shared.past.matched
    ensures u in s.locals && Active(s.locals[u]) == 1 && Position(s.locals[u]) == p
  {
    var here := Positions(s.locals, Inside(s.locals));
    InsideFacts(s);
    FillsRange(here, s.shared.past.matched.Keys, s.shared.ticket, p);
    u :| u in Inside(s.locals) && Position(s.locals[u]) == p;
  }

  // Thread `u` waits and may leave.
  predicate MayLeave(s: State, u: nat) {
    && u in s.locals && (s.locals[u].Joins? || s.locals[u].Awaits?)
    && Entitled(s.shared, s.locals[u].position, s.locals[u].slot, s.locals[u].group)
  }

  // With a delivered signal that nobody is accounted to, fewer have left than were delivered.
  lemma FreeMeansFewer(matched: map<nat, nat>, n: nat, d: nat, newcomer: nat)
    requires d < n && d !in matched.Values && newcomer !in matched
    requires forall p :: p in matched ==> matched[p] < n
    requires forall p, q :: p in matched && q in matched && p != q ==> matched[p] != matched[q]
    ensures |matched| < n
  {
    var more := matched[newcomer := d];
    assert more.Keys == matched.Keys + {newcomer};
    assert |more.Keys| == |matched.Keys| + 1;
    MatchedSize(more, n);
  }

  lemma LeavesOneFree(s: Shared, p: nat, slot: bool, group: nat)
    requires SharedOk(s) && s.past.stage == Steady && InGroup(s, p, slot, group) && Entitled(s, p, slot, group)
    ensures |s.past.matched| < s.Delivered()
  {
    if p < s.start {
      ClosedGroup(s, p, slot, group);
      FreeInClosed(s.past, s.ticket, p, group);
    } else {
      FreeInOpen(s.past, s.ticket, group);
    }
    var d := FirstFree(s.past.matched.Values, s.past.bounds[group]);
    TicketFresh(s.past, s.ticket);
    FreeMeansFewer(s.past.matched, s.Delivered(), d, s.ticket);
  }

  // All tickets below `n` have left, and all that were taken from there on.
  lemma LeftAtLeast(matched: map<nat, nat>, n: nat)
    requires forall p :: 0 <= p < n ==> p in matched
    ensures |matched| >= n + |Taken(matched, n)|
  {
    var before, after := Range(0, n), Taken(matched, n);
    assert before !! after;
    assert |before + after| == |before| + |after|;
    SubsetSize(before + after, matched.Keys);
  }

  // A ticket of group one that has not left is entitled once the group's word shows a signal.
  lemma GroupOneHolder(s: Shared, p: nat, slot: bool, group: nat)
    requires SharedOk(s) && s.past.stage == Steady && InGroup(s, p, slot, group) && s.A() <= p < s.B()
    ensures group == s.K() && slot == s.One()
    ensures !Entitled(s, p, slot, group) ==> s.A() + |Taken(s.past.matched, s.A())| == s.Delivered()
  {
    if group < s.K() { BeforeGroupOne(s, p, slot, group); }
  }

  lemma ClosedHaveLeft(s: State, p: nat)
    requires Inv(s) && s.shared.past.stage == Steady && (forall u :: !MayLeave(s, u)) && p < s.shared.A()
    ensures p in s.shared.past.matched
  {
    if p !in s.shared.past.matched {
      var u := TicketHolder(s, p);
      assert MayLeave(s, u);
    }
  }

  lemma GroupOneTaken(s: State, p: nat)
    requires Inv(s) && s.shared.past.stage == Steady && (forall u :: !MayLeave(s, u))
    requires s.shared.A() <= p < s.shared.B() && p !in s.shared.past.matched
    ensures s.shared.A() + |Taken(s.shared.past.matched, s.shared.A())| == s.shared.Delivered()
  {
    var u := TicketHolder(s, p);
    assert LocalOk(s.shared, s.locals[u]) && !MayLeave(s, u);
    GroupOneHolder(s.shared, p, s.locals[u].slot, s.locals[u].group);
  }

  lemma NobodyMayLeave(s: State)
    requires Inv(s) && s.shared.past.stage == Steady && forall u :: !MayLeave(s, u)
    ensures |s.shared.past.matched| >= s.shared.Delivered()
  {
    var shared, matched := s.shared, s.shared.past.matched;
    forall p | 0 <= p < shared.A() ensures p in matched { ClosedHaveLeft(s, p); }
    if p :| shared.A() <= p < shared.B() && p !in matched {
      GroupOneTaken(s, p);
      LeftAtLeast(matched, shared.A());
    } else {
      LeftAtLeast(matched, shared.B());
    }
  }

  lemma Deliveries(s: State)
    requires Inv(s) && s.shared.past.stage == Steady
    ensures |s.shared.past.matched| <= s.shared.Delivered()
    ensures (exists u :: MayLeave(s, u)) <==> |s.shared.past.matched| < s.shared.Delivered()
  {
    MatchedSize(s.shared.past.matched, s.shared.Delivered());
    if u :| MayLeave(s, u) {
      assert LocalOk(s.shared, s.locals[u]);
      LeavesOneFree(s.shared, s.locals[u].position, s.locals[u].slot, s.locals[u].group);
    } else {
      NobodyMayLeave(s);
    }
  }

  // Whenever no signaler is part-way through its stores: never have more waiters left than signals
  // were delivered, and some waiter may leave exactly when fewer have.
  lemma SignalsReachWaiters(threads: set<nat>, moves: seq<Move>)
    requires |threads| < MAX_THREADS && TimelyRun(Start(threads), moves)
    requires Run(Start(threads), moves).shared.past.stage == Steady
    ensures var s := Run(Start(threads), moves);
            && |s.shared.past.matched| <= s.shared.Delivered()
            && ((exists u :: MayLeave(s, u)) <==> |s.shared.past.matched| < s.shared.Delivered())
  {
    Reached(threads, moves);
    Deliveries(Run(Start(threads), moves));
  }

  // A finished signal delivered exactly one signal if any ticket below the count it observed was
  // unsignalled, and none otherwise; and as long as any delivered signal is not taken, its own
  // included, somebody inside may leave.
  lemma SignalDeliversOne(threads: set<nat>, moves: seq<Move>, t: nat, before: nat, next: nat)
    requires |threads| < MAX_THREADS && TimelyRun(Start(threads), moves)
    requires var s := Run(Start(threads), moves); t in s.locals && s.locals[t] == Holds(false, before, Release(next))
    ensures var s := Run(Start(threads), moves);
            && before <= next && s.shared.Delivered() == before + (if next > before then 1 else 0)
            && (|s.shared.past.matched| < s.shared.Delivered() <==> exists u :: MayLeave(s, u))
            && (next > before && |s.shared.past.matched| <= before ==> exists u :: MayLeave(s, u))
  {
    Reached(threads, moves);
    var s := Run(Start(threads), moves);
    assert LocalOk(s.shared, s.locals[t]);
    Deliveries(s);
  }
}
