/** One thread's spans of one size class, filed by occupancy: partial and full spans in lists,
    one empty span kept hot, the other empty spans listed with their pages discarded.
    The lists are sequences here; `LinkedList` proves the linked form. What other threads free
    meanwhile enters as an arbitrary choice each time a side channel is drained. */
module ClassHeaps {
  import opened Wrappers
  import opened Magazines
  import Occupancy

  datatype Slot = Slot(span: nat, index: nat)

  /** A span's slot count and its occupied slots. */
  datatype Span = Span(total: nat, used: set<nat>)

  // ---------------------------------------------------------------- lists

  ghost predicate NoDup<T>(list: seq<T>) { forall i, j :: 0 <= i < j < |list| ==> list[i] != list[j] }

  // The list without the node.
  function Without(list: seq<nat>, node: nat): (r: seq<nat>)
    ensures NoDup(list) ==> NoDup(r) && forall k :: k in r <==> k in list && k != node
  {
    if list == [] then []
    else if list[0] == node then list[1..]
    else
      var rest := Without(list[1..], node);
      assert list == [list[0]] + list[1..];
      assert NoDup(list) ==> NoDup(list[1..]) && list[0] !in list[1..] && list[0] !in rest;
      [list[0]] + rest
  }

  function Successor(list: seq<nat>, node: nat): Option<nat> {
    if list == [] then None
    else if list[0] == node then if |list| > 1 then Some(list[1]) else None
    else Successor(list[1..], node)
  }

  lemma {:induction false} Middle(pre: seq<nat>, node: nat, rest: seq<nat>)
    requires NoDup(pre + [node] + rest)
    ensures Without(pre + [node] + rest, node) == pre + rest
    ensures Successor(pre + [node] + rest, node) == if rest == [] then None else Some(rest[0])
  {
    var list := pre + [node] + rest;
    if pre == [] {
      assert list[0] == node && list[1..] == rest;
    } else {
      assert list[0] == pre[0] && list[|pre|] == node;
      assert list[1..] == pre[1..] + [node] + rest;
      Middle(pre[1..], node, rest);
      assert pre + rest == [pre[0]] + (pre[1..] + rest);
    }
  }

  // Unlinking the visited node leaves what was passed and what is to come; relinking it at the
  // front leaves the rest of the walk alone.
  lemma WalkPast(list: seq<nat>, pre: seq<nat>, node: nat, rest: seq<nat>)
    requires NoDup(list) && rest != [] && rest[0] == node && list == pre + rest
    ensures node in list && list == (pre + [node]) + rest[1..]
    ensures Without(list, node) == pre + rest[1..] && [node] + Without(list, node) == ([node] + pre) + rest[1..]
    ensures Successor(list, node) == if |rest| == 1 then None else Some(rest[1])
  {
    assert list[|pre|] == node;
    assert list == pre + [node] + rest[1..];
    Middle(pre, node, rest[1..]);
  }

  // ---------------------------------------------------------------- filing

  predicate SpanOk(s: Span) { 8 <= s.total && |s.used| <= s.total && forall i :: i in s.used ==> i < s.total }

  predicate Full(s: Span) { |s.used| == s.total }

  // Where each span belongs: partial iff neither empty nor full, full iff full, and an empty
  // span is either the hot reserve or listed as empty. `fresh_` holds a span that was just
  // opened for a claim and is listed as partial before it has an occupied slot, `out` one that
  // is listed nowhere because it is being refiled.
  ghost predicate Filed(spans: map<nat, Span>, partial: seq<nat>, full: seq<nat>, hot: Option<nat>, empty: seq<nat>,
                        fresh_: set<nat>, out: set<nat>) {
    && NoDup(partial) && NoDup(full) && NoDup(empty)
    && (forall k :: k in spans ==> SpanOk(spans[k]))
    && (forall k :: k in partial <==> k in spans && k !in out && !Full(spans[k]) && (spans[k].used != {} || k in fresh_))
    && (forall k :: k in full <==> k in spans && k !in out && Full(spans[k]))
    && (forall k :: k in empty || hot == Some(k) <==> k in spans && k !in out && spans[k].used == {} && k !in fresh_)
    && (hot.Some? ==> hot.value !in empty)
  }

  predicate IsUsed(spans: map<nat, Span>, s: Slot) { s.span in spans && s.index in spans[s.span].used }

  // An occupied slot that no magazine holds: a block of the program, or a free still pending.
  predicate Outstanding(spans: map<nat, Span>, cached: seq<Slot>, s: Slot) { IsUsed(spans, s) && s !in cached }

  // Cached slots are distinct and still marked taken in their spans.
  ghost predicate CacheOk(spans: map<nat, Span>, cached: seq<Slot>) {
    NoDup(cached) && forall s :: s in cached ==> IsUsed(spans, s)
  }

  // No span is lost and no free slot becomes outstanding, except in spans that came in.
  ghost predicate NothingTaken(before: map<nat, Span>, cachedBefore: seq<Slot>, after: map<nat, Span>, cached: seq<Slot>) {
    && (forall k :: k in before ==> k in after)
    && (forall s :: Outstanding(after, cached, s) ==> Outstanding(before, cachedBefore, s) || s.span !in before)
  }

  lemma OrphanAdded(spans: map<nat, Span>, cached: seq<Slot>, k: nat, span: Span)
    requires CacheOk(spans, cached) && k !in spans
    ensures CacheOk(spans[k := span], cached) && NothingTaken(spans, cached, spans[k := span], cached)
  {}

  lemma OrphanNoticed(spans: map<nat, Span>, cached: seq<Slot>, k: nat, orphan: Orphan, noticed: set<Slot>)
    requires CacheOk(spans, cached) && k !in spans && orphan.noticed <= orphan.span.used && NoticedOk(spans, cached, noticed)
    ensures NoticedOk(spans[k := orphan.span], cached, noticed + set i | i in orphan.noticed :: Slot(k, i)) && k !in SpansOf(noticed)
  {}

  lemma OneMoreNotice(noticed: set<Slot>, own: set<Slot>, k: nat)
    requires k !in SpansOf(noticed) && forall s :: s in own ==> s.span == k
    ensures |SpansOf(noticed + own)| == |SpansOf(noticed)| + if own == {} then 0 else 1
    ensures own != {} ==> k in SpansOf(noticed + own)
  {
    if own == {} {
      assert noticed + own == noticed;
    } else {
      assert SpansOf(noticed + own) == SpansOf(noticed) + {k};
    }
  }

  lemma NothingTakenTwice(a: map<nat, Span>, b: map<nat, Span>, c: map<nat, Span>, cached: seq<Slot>)
    requires NothingTaken(a, cached, b, cached) && NothingTaken(b, cached, c, cached)
    ensures NothingTaken(a, cached, c, cached)
  {}

  // Frees noticed before are either freed by now or noticed still.
  ghost predicate Reclaimed(spans: map<nat, Span>, before: set<Slot>, noticed: set<Slot>) {
    forall s :: s in before ==> s in noticed || !IsUsed(spans, s)
  }

  // The frees noticed at the start, in full spans that are no longer ahead, are freed.
  ghost predicate Asked(full: seq<nat>, rest: seq<nat>, noticed: set<Slot>, spans: map<nat, Span>, progress: bool) {
    forall s :: s in noticed && s.span in full && s.span !in rest ==> progress && !IsUsed(spans, s)
  }

  lemma AskedOn(full: seq<nat>, rest: seq<nat>, noticed: set<Slot>, spans: map<nat, Span>, progress: bool, k: nat, cached: seq<Slot>,
                now: set<Slot>, then_: set<Slot>, after: map<nat, Span>, progress': bool)
    requires Asked(full, rest, noticed, spans, progress) && rest != [] && rest[0] == k
    requires Reclaimed(spans, noticed, now) && Reclaimed(after, now, then_) && NothingTaken(spans, cached, after, cached)
    requires CacheOk(after, cached) && CacheOk(spans, cached) && after.Keys == spans.Keys
    requires forall s :: s in now && s.span == k ==> progress' && !IsUsed(after, s)
    requires progress ==> progress'
    requires forall s :: s in noticed ==> s !in cached
    requires !progress ==> forall s :: s in noticed ==> s in now
    ensures Asked(full, rest[1..], noticed, after, progress')
  {
    forall s | s in noticed && s.span in full && s.span !in rest[1..] ensures progress' && !IsUsed(after, s) {
      if s.span == k {
        if s !in now { assert !IsUsed(spans, s); assert !Outstanding(spans, cached, s); }
      } else {
        assert s.span !in rest;
        assert !Outstanding(spans, cached, s);
      }
    }
  }

  lemma VisitedOn(start: map<nat, Span>, full: seq<nat>, rest: seq<nat>, noticed: set<Slot>, spans: map<nat, Span>, progress: bool,
                  k: nat, cached: seq<Slot>, now: set<Slot>, then_: set<Slot>, after: map<nat, Span>, progress': bool)
    requires Asked(full, rest, noticed, spans, progress) && rest != [] && rest[0] == k
    requires NoticedOk(start, cached, noticed) && (!progress ==> spans == start) && spans.Keys == start.Keys
    requires Reclaimed(spans, noticed, now) && Reclaimed(after, now, then_) && NothingTaken(spans, cached, after, cached)
    requires CacheOk(after, cached) && CacheOk(spans, cached) && after.Keys == spans.Keys
    requires forall s :: s in now && s.span == k ==> progress' && !IsUsed(after, s)
    requires progress ==> progress'
    ensures Asked(full, rest[1..], noticed, after, progress') && Reclaimed(after, noticed, then_)
  {
    AskedOn(full, rest, noticed, spans, progress, k, cached, now, then_, after, progress');
    ReclaimedOn(start, spans, after, cached, noticed, now, then_);
  }

  // Draining span `k` uses its notice up.
  lemma NoticesTaken(noticed: set<Slot>, k: nat)
    ensures SpansOf(set s | s in noticed && s.span != k) == SpansOf(noticed) - {k}
  {
    var rest := set s | s in noticed && s.span != k;
    forall j | j in SpansOf(noticed) && j != k ensures j in SpansOf(rest) {
      var s :| s in noticed && s.span == j;
      assert s in rest;
    }
  }

  lemma ReclaimedOn(start: map<nat, Span>, before: map<nat, Span>, after: map<nat, Span>, cached: seq<Slot>,
                    noticed: set<Slot>, now: set<Slot>, then_: set<Slot>)
    requires Reclaimed(before, noticed, now) && Reclaimed(after, now, then_) && NothingTaken(before, cached, after, cached)
    requires forall s :: s in noticed ==> s !in cached && s.span in before
    ensures Reclaimed(after, noticed, then_)
  {
    GoneStaysGone(before, after, cached, noticed);
  }

  // What is freed stays free while nothing is claimed.
  lemma GoneStaysGone(before: map<nat, Span>, after: map<nat, Span>, cached: seq<Slot>, noticed: set<Slot>)
    requires NothingTaken(before, cached, after, cached) && forall s :: s in noticed ==> s !in cached && s.span in before
    ensures forall s :: s in noticed && !IsUsed(before, s) ==> !IsUsed(after, s)
  {
    forall s | s in noticed && !IsUsed(before, s) ensures !IsUsed(after, s) {
      assert !Outstanding(before, cached, s);
    }
  }

  // With no partial span and nothing found in the full ones, every free noticed is reclaimed.
  lemma NothingNoticed(spans: map<nat, Span>, full: seq<nat>, hot: Option<nat>, empty: seq<nat>, cached: seq<Slot>, noticed: set<Slot>, now: set<Slot>)
    requires Filed(spans, [], full, hot, empty, {}, {}) && Reclaimed(spans, noticed, now)
    requires forall s :: s in now && s.span in full ==> !IsUsed(spans, s)
    ensures forall s :: s in noticed ==> !IsUsed(spans, s)
  {
    UsedInFull(spans, full, hot, empty);
  }

  lemma UsedInFull(spans: map<nat, Span>, full: seq<nat>, hot: Option<nat>, empty: seq<nat>)
    requires Filed(spans, [], full, hot, empty, {}, {})
    ensures forall s :: IsUsed(spans, s) ==> s.span in full
  {
    forall s | IsUsed(spans, s) ensures s.span in full {
      assert spans[s.span].used != {} && s.span !in [];
    }
  }

  lemma StillNoticed(before: map<nat, Span>, cached: seq<Slot>, after: map<nat, Span>, cachedAfter: seq<Slot>, noticed: set<Slot>)
    requires NoticedOk(before, cached, noticed)
    requires forall s :: Outstanding(before, cached, s) ==> Outstanding(after, cachedAfter, s)
    ensures NoticedOk(after, cachedAfter, noticed)
  {}

  function IndicesIn(cached: seq<Slot>, k: nat): set<nat> { set s | s in cached && s.span == k :: s.index }

  // Frees that other threads have left in the spans' side channels, notice included, are of blocks
  // that are nobody's any more.
  ghost predicate NoticedOk(spans: map<nat, Span>, cached: seq<Slot>, noticed: set<Slot>) {
    forall s :: s in noticed ==> Outstanding(spans, cached, s)
  }

  function SpansOf(noticed: set<Slot>): set<nat> { set s | s in noticed :: s.span }

  function OutstandingSlots(spans: map<nat, Span>, cached: seq<Slot>): set<Slot> {
    set k, i | k in spans && i in spans[k].used && Slot(k, i) !in cached :: Slot(k, i)
  }

  lemma MoreNoticed(spans: map<nat, Span>, cached: seq<Slot>, noticed: set<Slot>, more: set<Slot>)
    requires NoticedOk(spans, cached, noticed) && more <= OutstandingSlots(spans, cached)
    ensures NoticedOk(spans, cached, noticed + more)
  {
    forall s | s in more ensures Outstanding(spans, cached, s) {
      assert s in OutstandingSlots(spans, cached);
    }
  }

  /** An abandoned span, with the frees left in its side channel. */
  datatype Orphan = Orphan(number: nat, span: Span, noticed: set<nat>)

  /** What the class heap gets from outside: abandoned spans of its class, span numbers the
      kernel still grants address space for, the frees noticed in its spans' side channels, and
      how many more notices may come. */
  class Supply {
    var orphans: seq<Orphan>
    var grants: seq<nat>
    var noticed: set<Slot>
    var notices: nat

    constructor (orphans: seq<Orphan>, grants: seq<nat>, notices: nat)
      ensures this.orphans == orphans && this.grants == grants && noticed == {} && this.notices == notices
    {
      this.orphans, this.grants, this.noticed, this.notices := orphans, grants, {}, notices;
    }

    ghost predicate Apart(spans: map<nat, Span>)
      reads this
    {
      && NoDup(grants)
      && (forall i :: 0 <= i < |orphans| ==>
            && orphans[i].number !in spans && orphans[i].number !in grants
            && SpanOk(orphans[i].span) && orphans[i].noticed <= orphans[i].span.used)
      && (forall i, j :: 0 <= i < j < |orphans| ==> orphans[i].number != orphans[j].number)
      && (forall k :: k in grants ==> k !in spans)
    }

    // How often a side channel may yet be found with a notice.
    function Left(): nat
      reads this
    {
      notices + |SpansOf(noticed)|
    }

    // The other threads run on: more frees may be noticed.
    method Arrive(spans: map<nat, Span>, cached: seq<Slot>)
      requires NoticedOk(spans, cached, noticed)
      modifies this`notices, this`noticed
      ensures NoticedOk(spans, cached, noticed) && old(noticed) <= noticed && Left() == old(Left())
    {
      assert noticed + {} == noticed;
      var more: set<Slot> :| more <= OutstandingSlots(spans, cached)
        && |SpansOf(noticed)| <= |SpansOf(noticed + more)| <= |SpansOf(noticed)| + notices;
      MoreNoticed(spans, cached, noticed, more);
      notices := notices - (|SpansOf(noticed + more)| - |SpansOf(noticed)|);
      noticed := noticed + more;
    }
  }

  class ThreadClassHeap {
    const total: nat
    var partial: seq<nat>
    var full: seq<nat>
    var hot: Option<nat>
    var empty: seq<nat>
    var spans: map<nat, Span>

    // Everything is filed but for the span being opened and the span being refiled.
    ghost predicate FiledBut(fresh_: set<nat>, out: set<nat>)
      reads this
    {
      total >= 8 && Filed(spans, partial, full, hot, empty, fresh_, out)
    }

    ghost predicate Valid()
      reads this
    {
      FiledBut({}, {})
    }

    constructor (total: nat)
      requires total >= 8
      ensures Valid() && this.total == total && spans == map[]
    {
      this.total := total;
      partial, full, hot, empty, spans := [], [], None, [], map[];
    }

    method ReleaseEmptySpan(k: nat)
      requires FiledBut({}, {k}) && k in spans && spans[k].used == {}
      modifies this`hot, this`empty
      ensures Valid()
    {
      var demoted := hot;
      hot := Some(k);
      if demoted.Some? {
        empty := [demoted.value] + empty;
      }
    }

    // Files an unlisted span by its occupancy.
    method PlaceSpan(k: nat)
      requires FiledBut({}, {k}) && k in spans
      modifies this`hot, this`empty, this`full, this`partial
      ensures Valid()
      ensures full == if Full(spans[k]) then [k] + old(full) else old(full)
    {
      var span := spans[k];
      if span.used == {} {
        ReleaseEmptySpan(k);
      } else if |span.used| == span.total {
        full := [k] + full;
      } else {
        partial := [k] + partial;
      }
    }

    // Returns one slot to its span and refiles the span if it was full or is now empty.
    method DeallocToSpan(slot: Slot)
      requires Valid() && IsUsed(spans, slot)
      modifies this`partial, this`full, this`hot, this`empty, this`spans
      ensures Valid()
      ensures var span := old(spans)[slot.span];
              spans == old(spans)[slot.span := Span(span.total, span.used - {slot.index})]
    {
      var k := slot.span;
      var wasFull := |spans[k].used| == spans[k].total;
      spans := spans[k := Span(spans[k].total, spans[k].used - {slot.index})];
      if wasFull {
        full := Without(full, k);
        PlaceSpan(k);
      } else if spans[k].used == {} {
        partial := Without(partial, k);
        PlaceSpan(k);
      }
    }

    // Drains the span's side channel: the frees noticed in it are freed in the span, and any other
    // of its outstanding slots may turn out to be, or none when the notice came late.
    method Drain(k: nat, cached: seq<Slot>, supply: Supply)
      requires k in spans && CacheOk(spans, cached) && NoticedOk(spans, cached, supply.noticed)
      modifies this`spans, supply`notices, supply`noticed
      ensures CacheOk(spans, cached) && NothingTaken(old(spans), cached, spans, cached)
      ensures spans == old(spans)[k := spans[k]] && spans[k].total == old(spans)[k].total && spans[k].used <= old(spans)[k].used
      ensures NoticedOk(spans, cached, supply.noticed) && Reclaimed(spans, old(supply.noticed), supply.noticed)
      ensures forall s :: s in old(supply.noticed) && s.span == k ==> s.index !in spans[k].used
      ensures supply.Left() <= old(supply.Left()) - if k in SpansOf(old(supply.noticed)) then 1 else 0
    {
      supply.Arrive(spans, cached);
      var found := set s | s in supply.noticed && s.span == k :: s.index;
      var kept := IndicesIn(cached, k);
      var freed: set<nat> :| found <= freed <= spans[k].used - kept;
      spans := spans[k := Span(spans[k].total, spans[k].used - freed)];
      NoticesTaken(supply.noticed, k);
      supply.noticed := set s | s in supply.noticed && s.span != k;
    }

    // Has another thread left a notice in the span's side channel? It has when a free was noticed
    // before; it may have otherwise, while notices last.
    method HasRemoteFrees(k: nat, cached: seq<Slot>, supply: Supply) returns (seen: bool)
      requires NoticedOk(spans, cached, supply.noticed)
      modifies supply`notices, supply`noticed
      ensures NoticedOk(spans, cached, supply.noticed) && old(supply.noticed) <= supply.noticed
      ensures k in SpansOf(old(supply.noticed)) ==> seen
      ensures supply.Left() == old(supply.Left()) || (seen && supply.Left() < old(supply.Left()))
      ensures seen ==> k in SpansOf(supply.noticed) || supply.Left() < old(supply.Left())
    {
      supply.Arrive(spans, cached);
      seen := exists s :: s in supply.noticed && s.span == k;
      if !seen && supply.notices > 0 {
        if * {
          seen := true;
          supply.notices := supply.notices - 1;
        }
      }
    }

    // Drains one full span and refiles it, wherever its remaining slots put it.
    method Refile(k: nat, cached: seq<Slot>, supply: Supply)
      requires Valid() && CacheOk(spans, cached) && k in full && NoticedOk(spans, cached, supply.noticed)
      modifies this`partial, this`full, this`hot, this`empty, this`spans, supply`notices, supply`noticed
      ensures Valid() && CacheOk(spans, cached) && NothingTaken(old(spans), cached, spans, cached)
      ensures spans.Keys == old(spans).Keys
      ensures full == if Full(spans[k]) then [k] + Without(old(full), k) else Without(old(full), k)
      ensures NoticedOk(spans, cached, supply.noticed) && Reclaimed(spans, old(supply.noticed), supply.noticed)
      ensures forall s :: s in old(supply.noticed) && s.span == k ==> !IsUsed(spans, s)
      ensures supply.Left() <= old(supply.Left()) - if k in SpansOf(old(supply.noticed)) then 1 else 0
    {
      Drain(k, cached, supply);
      assert spans.Keys == old(spans).Keys;
      assert |spans[k].used| <= |old(spans)[k].used| by { SubsetSize(spans[k].used, old(spans)[k].used); }
      full := Without(full, k);
      PlaceSpan(k);
    }

    // The full list is what the walk has passed and what is ahead, from the current node on.
    ghost predicate Walk(pre: seq<nat>, rest: seq<nat>, node: Option<nat>)
      reads this
    {
      full == pre + rest && node == if rest == [] then None else Some(rest[0])
    }

    // One span of the walk. Its successor is read before it is unlinked, and it is relinked at
    // the front, behind the walk.
    method Visit(k: nat, cached: seq<Slot>, supply: Supply, ghost pre: seq<nat>, ghost rest: seq<nat>)
      returns (seen: bool, next: Option<nat>, ghost passed: seq<nat>, ghost ahead: seq<nat>)
      requires Valid() && CacheOk(spans, cached) && NoticedOk(spans, cached, supply.noticed)
      requires Walk(pre, rest, Some(k))
      modifies this`partial, this`full, this`hot, this`empty, this`spans, supply`notices, supply`noticed
      ensures Valid() && CacheOk(spans, cached) && NothingTaken(old(spans), cached, spans, cached) && spans.Keys == old(spans).Keys
      ensures Walk(passed, ahead, next) && ahead == rest[1..]
      ensures if seen then supply.Left() < old(supply.Left()) else supply.Left() == old(supply.Left())
      ensures !seen ==> spans == old(spans) && partial == old(partial) && hot == old(hot) && empty == old(empty)
      ensures NoticedOk(spans, cached, supply.noticed) && Reclaimed(spans, old(supply.noticed), supply.noticed)
      ensures forall s :: s in old(supply.noticed) && s.span == k ==> seen && !IsUsed(spans, s)
    {
      WalkPast(full, pre, k, rest);
      next := Successor(full, k);
      passed, ahead := pre + [k], rest[1..];
      seen := HasRemoteFrees(k, cached, supply);
      if seen {
        Refile(k, cached, supply);
        passed := if Full(spans[k]) then [k] + pre else pre;
      }
    }

    // Asks each span that was full at the start, once, drains those with a notice and refiles them:
    // every free noticed before the call in such a span is reclaimed, and then there is progress.
    method ReclaimRemoteFrees(cached: seq<Slot>, supply: Supply) returns (progress: bool)
      requires Valid() && CacheOk(spans, cached) && NoticedOk(spans, cached, supply.noticed)
      modifies this`partial, this`full, this`hot, this`empty, this`spans, supply`notices, supply`noticed
      ensures Valid() && CacheOk(spans, cached) && NothingTaken(old(spans), cached, spans, cached)
      ensures spans.Keys == old(spans).Keys
      ensures if progress then supply.Left() < old(supply.Left()) else supply.Left() == old(supply.Left())
      ensures !progress ==> spans == old(spans) && partial == old(partial) && hot == old(hot) && empty == old(empty)
      ensures NoticedOk(spans, cached, supply.noticed) && Reclaimed(spans, old(supply.noticed), supply.noticed)
      ensures forall s :: s in old(supply.noticed) && s.span in old(full) ==> progress && !IsUsed(spans, s)
    {
      progress := false;
      ghost var start, left, noticed := spans, supply.Left(), supply.noticed;
      var node := if full == [] then None else Some(full[0]);
      ghost var pre, rest := [], full;
      while node.Some?
        invariant Valid() && CacheOk(spans, cached) && NothingTaken(start, cached, spans, cached)
        invariant spans.Keys == start.Keys
        invariant Walk(pre, rest, node)
        invariant if progress then supply.Left() < left else supply.Left() == left
        invariant !progress ==> spans == start && partial == old(partial) && hot == old(hot) && empty == old(empty)
        invariant NoticedOk(spans, cached, supply.noticed) && Reclaimed(spans, noticed, supply.noticed)
        invariant Asked(old(full), rest, noticed, spans, progress)
        decreases |rest|
      {
        ghost var before, noticedBefore, progressBefore, k := spans, supply.noticed, progress, node.value;
        ghost var ahead := rest;
        var seen;
        seen, node, pre, rest := Visit(node.value, cached, supply, pre, rest);
        progress := progress || seen;
        TakenStepwise(start, cached, before, cached, spans, cached);
        VisitedOn(start, old(full), ahead, noticed, before, progressBefore, k, cached, noticedBefore, supply.noticed, spans, progress);
      }
    }

    // Opens the hot reserve, or else the first discarded span, for a claim.
    method ReactivateSpan() returns (reopened: bool)
      requires Valid() && partial == []
      modifies this`partial, this`hot, this`empty, this`spans
      ensures spans == old(spans)
      ensures if reopened then partial != [] && FiledBut({partial[0]}, {}) && spans[partial[0]].used == {}
              else Valid() && partial == [] && hot == None && empty == []
    {
      var k;
      if hot.Some? {
        k := hot.value;
        hot := None;
      } else if empty != [] {
        k := empty[0];
        empty := empty[1..];
      } else {
        return false;
      }
      assert spans[k].used == {};
      spans := spans[k := Span(spans[k].total, {})];
      partial := [k] + partial;
      return true;
    }

    // Takes one abandoned span over and drains what was freed while nobody owned it.
    method AdoptSpan(cached: seq<Slot>, supply: Supply) returns (adopted: bool)
      requires Valid() && CacheOk(spans, cached) && supply.Apart(spans) && NoticedOk(spans, cached, supply.noticed)
      modifies this`partial, this`full, this`hot, this`empty, this`spans, supply`orphans, supply`notices, supply`noticed
      ensures Valid() && CacheOk(spans, cached) && supply.Apart(spans) && NothingTaken(old(spans), cached, spans, cached)
      ensures NoticedOk(spans, cached, supply.noticed) && Reclaimed(spans, old(supply.noticed), supply.noticed)
      ensures supply.Left() <= old(supply.Left())
      ensures if adopted then
                old(supply.orphans) != [] && supply.orphans == old(supply.orphans)[1..]
                && var orphan := old(supply.orphans)[0];
                   orphan.number in spans && spans[orphan.number].used <= orphan.span.used - orphan.noticed
              else supply.orphans == old(supply.orphans) == [] && spans == old(spans) && partial == old(partial) && hot == old(hot) && empty == old(empty)
    {
      if supply.orphans == [] {
        return false;
      }
      var orphan := supply.orphans[0];
      supply.orphans := supply.orphans[1..];
      TakeOver(orphan, cached, supply);
      PlaceSpan(orphan.number);
      return true;
    }

    // The span joins this heap's, and the frees that came with it are freed in it.
    method TakeOver(orphan: Orphan, cached: seq<Slot>, supply: Supply)
      requires Valid() && CacheOk(spans, cached) && NoticedOk(spans, cached, supply.noticed)
      requires orphan.number !in spans && SpanOk(orphan.span) && orphan.noticed <= orphan.span.used
      modifies this`spans, supply`notices, supply`noticed
      ensures FiledBut({}, {orphan.number}) && CacheOk(spans, cached) && NothingTaken(old(spans), cached, spans, cached)
      ensures NoticedOk(spans, cached, supply.noticed) && Reclaimed(spans, old(supply.noticed), supply.noticed)
      ensures supply.Left() <= old(supply.Left())
      ensures orphan.number in spans && spans == old(spans)[orphan.number := spans[orphan.number]]
      ensures spans[orphan.number].used <= orphan.span.used - orphan.noticed
    {
      var k := orphan.number;
      OrphanAdded(spans, cached, k, orphan.span);
      ghost var before, noticed := spans, supply.noticed;
      spans := spans[k := orphan.span];
      ghost var added := spans;
      OrphanNoticed(before, cached, k, orphan, noticed);
      var own := set i | i in orphan.noticed :: Slot(k, i);
      DrainOrphan(k, own, cached, supply);
      NothingTakenTwice(before, added, spans, cached);
      assert spans == before[k := spans[k]];
      assert forall i :: i in orphan.noticed ==> Slot(k, i) in own;
      OrphanUnfiled(before, partial, full, hot, empty, k, orphan.span, spans[k]);
    }

    // The frees `own` that came with span `k` are freed in it, whether or not the drain finds more.
    method DrainOrphan(k: nat, own: set<Slot>, cached: seq<Slot>, supply: Supply)
      requires k in spans && CacheOk(spans, cached) && NoticedOk(spans, cached, supply.noticed + own)
      requires k !in SpansOf(supply.noticed) && forall s :: s in own ==> s.span == k
      modifies this`spans, supply`notices, supply`noticed
      ensures CacheOk(spans, cached) && NothingTaken(old(spans), cached, spans, cached)
      ensures spans == old(spans)[k := spans[k]] && spans[k].total == old(spans)[k].total && spans[k].used <= old(spans)[k].used
      ensures NoticedOk(spans, cached, supply.noticed) && Reclaimed(spans, old(supply.noticed), supply.noticed)
      ensures forall s :: s in own ==> s.index !in spans[k].used
      ensures supply.Left() <= old(supply.Left())
    {
      ghost var noticed, left := supply.noticed, supply.Left();
      OneMoreNotice(supply.noticed, own, k);
      supply.noticed := supply.noticed + own;
      ghost var more := supply.noticed;
      Drain(k, cached, supply);
      assert forall s :: s in noticed ==> s in more;
    }

    method CreateSpan(supply: Supply) returns (created: bool)
      requires Valid() && partial == [] && supply.Apart(spans)
      modifies this`partial, this`spans, supply`grants
      ensures supply.Apart(spans)
      ensures if created then old(supply.grants) != [] && supply.grants == old(supply.grants)[1..] && partial != [] && FiledBut({partial[0]}, {}) && partial[0] !in old(spans)
                              && spans == old(spans)[partial[0] := Span(total, {})]
              else supply.grants == old(supply.grants) == [] && spans == old(spans) && Valid() && partial == []
    {
      if supply.grants == [] {
        return false;
      }
      var k := supply.grants[0];
      supply.grants := supply.grants[1..];
      spans := spans[k := Span(total, {})];
      partial := [k] + partial;
      return true;
    }

    // A span is ready for a claim: the first partial one, filed properly or just opened.
    ghost predicate Ready()
      reads this
    {
      partial != [] && (Valid() || FiledBut({partial[0]}, {}))
    }

    // Gets a partial span by every means, in order of cost. It fails only when the full spans gave
    // nothing, no empty span is left, nothing is abandoned and the kernel refuses; and it takes
    // fresh address space only when all that comes before is used up and every free noticed before
    // the call is reclaimed.
    method ReplenishPartial(cached: seq<Slot>, supply: Supply) returns (ok: bool)
      requires Valid() && CacheOk(spans, cached) && supply.Apart(spans) && NoticedOk(spans, cached, supply.noticed)
      modifies this`partial, this`full, this`hot, this`empty, this`spans, supply
      ensures CacheOk(spans, cached) && supply.Apart(spans) && NothingTaken(old(spans), cached, spans, cached)
      ensures NoticedOk(spans, cached, supply.noticed) && Reclaimed(spans, old(supply.noticed), supply.noticed)
      ensures if ok then Ready()
              else Valid() && partial == [] && supply.grants == []
      ensures !ok || (old(partial) == [] && supply.grants != old(supply.grants)) ==>
                hot == None && empty == [] && supply.orphans == [] && forall s :: s in old(supply.noticed) ==> !IsUsed(spans, s)
      ensures old(partial) != [] ==> spans == old(spans) && partial == old(partial)
    {
      ghost var noticed := supply.noticed;
      while partial == []
        invariant CacheOk(spans, cached) && supply.Apart(spans) && NothingTaken(old(spans), cached, spans, cached)
        invariant if partial == [] then Valid() else Ready()
        invariant NoticedOk(spans, cached, supply.noticed) && Reclaimed(spans, noticed, supply.noticed)
        invariant supply.grants != old(supply.grants) ==>
                    partial != [] && hot == None && empty == [] && supply.orphans == [] && forall s :: s in noticed ==> !IsUsed(spans, s)
        invariant old(partial) != [] ==> spans == old(spans) && partial == old(partial)
        decreases supply.Left() + |supply.orphans|, partial == []
      {
        ghost var before, noticedBefore := spans, supply.noticed;
        var progress := ReclaimRemoteFrees(cached, supply);
        ReclaimedOn(old(spans), before, spans, cached, noticed, noticedBefore, supply.noticed);
        TakenStepwise(old(spans), cached, before, cached, spans, cached);
        if !progress {
          ghost var between, noticedBetween := spans, supply.noticed;
          NothingNoticed(spans, full, hot, empty, cached, noticed, noticedBefore);
          var found := OpenSpan(cached, supply);
          ReclaimedOn(old(spans), between, spans, cached, noticed, noticedBetween, supply.noticed);
          GoneStaysGone(between, spans, cached, noticed);
          TakenStepwise(old(spans), cached, between, cached, spans, cached);
          if !found { return false; }
        }
      }
      return true;
    }

    // Once the full spans gave nothing: an empty span of one's own, then an abandoned one, then
    // fresh address space.
    method OpenSpan(cached: seq<Slot>, supply: Supply) returns (found: bool)
      requires Valid() && partial == [] && CacheOk(spans, cached) && supply.Apart(spans) && NoticedOk(spans, cached, supply.noticed)
      modifies this`partial, this`full, this`hot, this`empty, this`spans, supply
      ensures CacheOk(spans, cached) && supply.Apart(spans) && NothingTaken(old(spans), cached, spans, cached)
      ensures NoticedOk(spans, cached, supply.noticed) && Reclaimed(spans, old(supply.noticed), supply.noticed)
      ensures if partial == [] then Valid() else Ready()
      ensures supply.Left() <= old(supply.Left())
      ensures found ==> |supply.orphans| < |old(supply.orphans)| || (supply.orphans == old(supply.orphans) && partial != [])
      ensures !found ==> spans == old(spans) && partial == [] && supply.grants == []
      ensures !found || supply.grants != old(supply.grants) ==> hot == None && empty == [] && supply.orphans == [] && (found ==> partial != [])
    {
      found := ReactivateSpan();
      if found { return; }
      found := AdoptSpan(cached, supply);
      if found { return; }
      found := CreateSpan(supply);
    }

    // Marks at least one and at most `max` free slots taken, as the occupancy bitmap does.
    method ClaimUpTo(k: nat, max: nat) returns (claimed: set<nat>)
      requires k in spans && SpanOk(spans[k]) && !Full(spans[k]) && max > 0
      modifies this`spans
      ensures 0 < |claimed| <= max && claimed !! old(spans)[k].used
      ensures spans == old(spans)[k := Span(old(spans)[k].total, old(spans)[k].used + claimed)] && SpanOk(spans[k])
    {
      var free := Occupancy.Range(0, spans[k].total) - spans[k].used;
      SomeFree(spans[k]);
      var i :| i in free;
      assert {i} <= free && 0 < |{i}| <= max;
      claimed :| claimed <= free && 0 < |claimed| <= max;
      Fits(spans[k], claimed);
      spans := spans[k := Span(spans[k].total, spans[k].used + claimed)];
    }

    // Fills the magazine from partial spans. Every claim succeeds and fits.
    method Refill(magazine: Magazine<Slot>, supply: Supply)
      requires Valid() && magazine.Valid() && CacheOk(spans, magazine.Contents()) && supply.Apart(spans)
      requires NoticedOk(spans, magazine.Contents(), supply.noticed)
      modifies this`partial, this`full, this`hot, this`empty, this`spans, supply, magazine`count, magazine.view
      ensures Valid() && magazine.Valid() && CacheOk(spans, magazine.Contents()) && supply.Apart(spans)
      ensures NoticedOk(spans, magazine.Contents(), supply.noticed)
      ensures old(magazine.Contents()) <= magazine.Contents()
      ensures NothingTaken(old(spans), old(magazine.Contents()), spans, magazine.Contents())
      ensures magazine.Remaining() == 0
              || (partial == [] && hot == None && empty == [] && supply.orphans == [] && supply.grants == [])
    {
      while magazine.Remaining() > 0
        invariant Valid() && magazine.Valid() && CacheOk(spans, magazine.Contents()) && supply.Apart(spans)
        invariant NoticedOk(spans, magazine.Contents(), supply.noticed)
        invariant old(magazine.Contents()) <= magazine.Contents()
        invariant NothingTaken(old(spans), old(magazine.Contents()), spans, magazine.Contents())
      {
        ghost var before := spans;
        var cached := magazine.view[..magazine.count];
        if partial == [] {
          var ok := ReplenishPartial(cached, supply);
          TakenStepwise(old(spans), old(magazine.Contents()), before, cached, spans, cached);
          if !ok { return; }
        }
        before := spans;
        ClaimBatch(magazine, supply);
        TakenStepwise(old(spans), old(magazine.Contents()), before, cached, spans, magazine.Contents());
      }
    }

    // Cross-thread frees of the first partial span are folded in first, so their slots re-enter
    // the batch.
    method FoldIn(cached: seq<Slot>, supply: Supply)
      requires Ready() && CacheOk(spans, cached) && supply.Apart(spans) && NoticedOk(spans, cached, supply.noticed)
      modifies this`spans, supply`notices, supply`noticed
      ensures FiledBut({partial[0]}, {}) && CacheOk(spans, cached) && supply.Apart(spans) && spans.Keys == old(spans).Keys
      ensures NothingTaken(old(spans), cached, spans, cached)
      ensures NoticedOk(spans, cached, supply.noticed)
      ensures forall s :: s in old(supply.noticed) && s.span == partial[0] ==> !IsUsed(spans, s)
    {
      var k := partial[0];
      ghost var noticed := supply.noticed;
      var seen := HasRemoteFrees(k, cached, supply);
      assert forall s :: s in noticed && s.span == k ==> k in SpansOf(noticed);
      if seen { DrainFront(k, cached, supply); }
    }

    method DrainFront(k: nat, cached: seq<Slot>, supply: Supply)
      requires Ready() && k == partial[0] && CacheOk(spans, cached) && NoticedOk(spans, cached, supply.noticed)
      modifies this`spans, supply`notices, supply`noticed
      ensures FiledBut({k}, {}) && CacheOk(spans, cached) && spans.Keys == old(spans).Keys
      ensures NothingTaken(old(spans), cached, spans, cached) && NoticedOk(spans, cached, supply.noticed)
      ensures forall s :: s in old(supply.noticed) && s.span == k ==> !IsUsed(spans, s)
    {
      assert FiledBut({k}, {});
      ghost var before := spans;
      Drain(k, cached, supply);
      DrainedFiled(before, partial, full, hot, empty, k, spans[k]);
    }

    // One round of a refill on the first partial span: frees noticed in it come back before
    // anything is claimed.
    method ClaimBatch(magazine: Magazine<Slot>, supply: Supply)
      requires Ready() && magazine.Valid() && CacheOk(spans, magazine.Contents()) && magazine.Remaining() > 0 && supply.Apart(spans)
      requires NoticedOk(spans, magazine.Contents(), supply.noticed)
      modifies this`partial, this`full, this`spans, supply`notices, supply`noticed, magazine`count, magazine.view
      ensures Valid() && magazine.Valid() && CacheOk(spans, magazine.Contents()) && supply.Apart(spans)
      ensures NoticedOk(spans, magazine.Contents(), supply.noticed)
      ensures old(magazine.Contents()) < magazine.Contents()
      ensures NothingTaken(old(spans), old(magazine.Contents()), spans, magazine.Contents())
      ensures forall s :: s in old(supply.noticed) && s.span == old(partial[0]) ==> !Outstanding(spans, magazine.Contents(), s)
    {
      var cached := magazine.view[..magazine.count];
      ghost var k, noticed := partial[0], supply.noticed;
      FoldIn(cached, supply);
      ghost var drained := spans;
      var slots := ClaimFront(cached, magazine.Remaining());
      TakenStepwise(old(spans), cached, drained, cached, spans, cached + slots);
      StillNoticed(drained, cached, spans, cached + slots, supply.noticed);
      forall s | s in noticed && s.span == k ensures !Outstanding(spans, cached + slots, s) {
        assert !Outstanding(drained, cached, s);
      }
      magazine.Refill(slots);
    }

    // Claims from the first partial span and moves it to the full list if nothing is left.
    method ClaimFront(cached: seq<Slot>, max: nat) returns (slots: seq<Slot>)
      requires partial != [] && FiledBut({partial[0]}, {}) && CacheOk(spans, cached) && max > 0
      modifies this`partial, this`full, this`spans
      ensures Valid() && 0 < |slots| <= max && spans.Keys == old(spans).Keys
      ensures CacheOk(spans, cached + slots) && NothingTaken(old(spans), cached, spans, cached + slots)
      ensures forall s :: Outstanding(old(spans), cached, s) ==> Outstanding(spans, cached + slots, s)
    {
      var k := partial[0];
      var claimed := ClaimUpTo(k, max);
      slots := Expand(k, claimed);
      CacheGrows(old(spans), cached, spans, k, claimed, slots);
      FileClaimed(old(spans), partial, full, hot, empty, k, spans[k]);
      if |spans[k].used| == spans[k].total {
        partial := Without(partial, k);
        full := [k] + full;
      }
    }

    // Returns the magazine's overflow to the spans, down to the low-water mark.
    method FlushToSpan(magazine: Magazine<Slot>)
      requires Valid() && magazine.Valid() && CacheOk(spans, magazine.Contents())
      modifies this`partial, this`full, this`hot, this`empty, this`spans, magazine`count
      ensures Valid() && magazine.Valid() && CacheOk(spans, magazine.Contents())
      ensures var before := old(magazine.Contents());
              magazine.Contents() == if |before| <= magazine.lowWater then before else before[..magazine.lowWater]
      ensures spans.Keys == old(spans).Keys
      ensures forall s :: Outstanding(spans, magazine.Contents(), s) <==> Outstanding(old(spans), old(magazine.Contents()), s)
    {
      var popped := true;
      while popped
        invariant Valid() && magazine.Valid() && CacheOk(spans, magazine.Contents())
        invariant magazine.Contents() <= old(magazine.Contents()) && spans.Keys == old(spans).Keys
        invariant |magazine.Contents()| == |old(magazine.Contents())| || |magazine.Contents()| >= magazine.lowWater
        invariant !popped ==> |magazine.Contents()| <= magazine.lowWater
        invariant forall s :: Outstanding(spans, magazine.Contents(), s) <==> Outstanding(old(spans), old(magazine.Contents()), s)
        decreases magazine.count, popped
      {
        popped := FlushOne(magazine);
      }
    }

    // Frees the top slot if the magazine is above its low-water mark.
    method FlushOne(magazine: Magazine<Slot>) returns (popped: bool)
      requires Valid() && magazine.Valid() && CacheOk(spans, magazine.Contents())
      modifies this`partial, this`full, this`hot, this`empty, this`spans, magazine`count
      ensures Valid() && magazine.Valid() && CacheOk(spans, magazine.Contents())
      ensures popped <==> |old(magazine.Contents())| > magazine.lowWater
      ensures var before := old(magazine.Contents());
              magazine.Contents() == if popped then before[..|before| - 1] else before
      ensures spans.Keys == old(spans).Keys
      ensures forall s :: Outstanding(spans, magazine.Contents(), s) <==> Outstanding(old(spans), old(magazine.Contents()), s)
    {
      ghost var contents, before := magazine.Contents(), spans;
      var slot := magazine.PopAbove(magazine.lowWater);
      popped := slot.Some?;
      if popped {
        DeallocToSpan(slot.value);
        Uncached(before, contents, spans, slot.value);
        assert contents[..|contents| - 1] == magazine.Contents();
      }
    }

    // Stages a freed slot. The push after a flush always finds room.
    method DeallocLocal(magazine: Magazine<Slot>, slot: Slot)
      requires Valid() && magazine.Valid() && CacheOk(spans, magazine.Contents())
      requires Outstanding(spans, magazine.Contents(), slot)
      modifies this`partial, this`full, this`hot, this`empty, this`spans, magazine`count, magazine.view
      ensures Valid() && magazine.Valid() && CacheOk(spans, magazine.Contents()) && slot in magazine.Contents()
      ensures forall s :: Outstanding(spans, magazine.Contents(), s) <==> Outstanding(old(spans), old(magazine.Contents()), s) && s != slot
    {
      var pushed := magazine.TryPush(slot);
      if !pushed {
        FlushToSpan(magazine);
        assert Outstanding(spans, magazine.Contents(), slot);
        pushed := magazine.TryPush(slot);
        assert pushed;
      }
    }

    // Hands out a cached slot, refilling first at the low-water mark. It fails only when the
    // magazine is empty and no span can be had.
    method AllocSmall(magazine: Magazine<Slot>, supply: Supply, chunk: nat) returns (slot: Option<Slot>)
      requires Valid() && magazine.Valid() && CacheOk(spans, magazine.Contents()) && supply.Apart(spans) && chunk < 0x1_0000
      requires NoticedOk(spans, magazine.Contents(), supply.noticed)
      modifies this`partial, this`full, this`hot, this`empty, this`spans, supply, magazine`count, magazine.view
      ensures Valid() && magazine.Valid() && CacheOk(spans, magazine.Contents()) && supply.Apart(spans)
      ensures NoticedOk(spans, magazine.Contents(), supply.noticed)
      ensures slot.None? ==> old(magazine.Contents()) == [] && partial == [] && hot == None && empty == [] && supply.orphans == [] && supply.grants == []
      ensures slot.Some? ==> Outstanding(spans, magazine.Contents(), slot.value)
      ensures forall s :: Outstanding(spans, magazine.Contents(), s) && slot != Some(s) ==>
                Outstanding(old(spans), old(magazine.Contents()), s) || s.span !in old(spans)
    {
      if magazine.count <= magazine.lowWater {
        Refill(magazine, supply);
      }
      slot := Draw(magazine, chunk);
    }

    // The drawn slot, and no other, becomes outstanding.
    method Draw(magazine: Magazine<Slot>, chunk: nat) returns (slot: Option<Slot>)
      requires magazine.Valid() && CacheOk(spans, magazine.Contents()) && chunk < 0x1_0000
      modifies magazine`count, magazine.view
      ensures magazine.Valid() && CacheOk(spans, magazine.Contents())
      ensures slot.None? <==> old(magazine.Contents()) == []
      ensures slot.None? ==> magazine.Contents() == []
      ensures slot.Some? ==> slot.value in old(magazine.Contents())
      ensures forall s :: Outstanding(spans, magazine.Contents(), s) <==> Outstanding(spans, old(magazine.Contents()), s) || slot == Some(s)
    {
      ghost var before := magazine.Contents();
      slot := magazine.DrawRandom(chunk);
      if slot.Some? {
        Drawn(before, IndexBelow(chunk, |before|));
      }
    }

    // Thread exit: cached slots go back to their bitmaps without refiling, then three of the four
    // places are handed to the abandoned pool. The hot reserve, which is empty, is left behind.
    method AbandonAll(magazine: Magazine<Slot>, pool: seq<nat>) returns (abandoned: seq<nat>)
      requires Valid() && magazine.Valid() && CacheOk(spans, magazine.Contents())
      modifies this`partial, this`full, this`empty, this`spans, magazine`count
      ensures magazine.Valid() && magazine.Contents() == [] && spans.Keys == old(spans).Keys
      ensures forall s :: IsUsed(spans, s) <==> Outstanding(old(spans), old(magazine.Contents()), s)
      ensures partial == [] && full == [] && empty == []
      ensures abandoned == old(empty) + (old(full) + (old(partial) + pool))
      ensures forall k :: k in old(empty) || k in old(full) || k in old(partial) <==> k in spans && hot != Some(k)
      ensures hot.Some? ==> hot.value in spans && spans[hot.value].used == {}
    {
      var popped := true;
      while popped
        invariant magazine.Valid() && CacheOk(spans, magazine.Contents()) && spans.Keys == old(spans).Keys
        invariant !popped ==> magazine.Contents() == []
        invariant forall s :: Outstanding(spans, magazine.Contents(), s) <==> Outstanding(old(spans), old(magazine.Contents()), s)
        invariant forall k :: k in spans ==> spans[k].used <= old(spans)[k].used
        invariant partial == old(partial) && full == old(full) && empty == old(empty)
        decreases magazine.count, popped
      {
        ghost var contents, before := magazine.Contents(), spans;
        assert contents != [] ==> IsUsed(spans, contents[|contents| - 1]);
        var slot := magazine.PopAbove(0);
        popped := slot.Some?;
        if popped {
          var k := slot.value.span;
          spans := spans[k := Span(spans[k].total, spans[k].used - {slot.value.index})];
          Uncached(before, contents, spans, slot.value);
          assert contents[..|contents| - 1] == magazine.Contents();
        }
      }
      abandoned := partial + pool;
      abandoned := full + abandoned;
      abandoned := empty + abandoned;
      partial, full, empty := [], [], [];
    }
  }

  // A span being opened for a claim may lose slots before it gains some.
  lemma DrainedFiled(before: map<nat, Span>, partial: seq<nat>, full: seq<nat>, hot: Option<nat>, empty: seq<nat>, k: nat, span: Span)
    requires Filed(before, partial, full, hot, empty, {k}, {}) && k in partial
    requires span.total == before[k].total && span.used <= before[k].used
    ensures Filed(before[k := span], partial, full, hot, empty, {k}, {})
  {
    SubsetSize(span.used, before[k].used);
  }

  // A span that came in and lost some slots is listed nowhere yet.
  lemma OrphanUnfiled(before: map<nat, Span>, partial: seq<nat>, full: seq<nat>, hot: Option<nat>, empty: seq<nat>,
                      k: nat, came: Span, span: Span)
    requires Filed(before, partial, full, hot, empty, {}, {}) && k !in before && SpanOk(came)
    requires span.total == came.total && span.used <= came.used
    ensures Filed(before[k := span], partial, full, hot, empty, {}, {k})
  {
    SubsetSize(span.used, came.used);
  }

  // A claimed span is not empty: it stays where it is unless it is full now.
  lemma FileClaimed(before: map<nat, Span>, partial: seq<nat>, full: seq<nat>, hot: Option<nat>, empty: seq<nat>, k: nat, span: Span)
    requires Filed(before, partial, full, hot, empty, {k}, {}) && k in partial && SpanOk(span) && span.used != {}
    ensures if Full(span) then Filed(before[k := span], Without(partial, k), [k] + full, hot, empty, {}, {})
            else Filed(before[k := span], partial, full, hot, empty, {}, {})
  {
    if Full(span) { FileFull(before, partial, full, hot, empty, k, span); }
  }

  lemma FileFull(before: map<nat, Span>, partial: seq<nat>, full: seq<nat>, hot: Option<nat>, empty: seq<nat>, k: nat, span: Span)
    requires Filed(before, partial, full, hot, empty, {k}, {}) && k in partial && SpanOk(span) && span.used != {} && Full(span)
    ensures Filed(before[k := span], Without(partial, k), [k] + full, hot, empty, {}, {})
  {}

  lemma SomeFree(s: Span)
    requires SpanOk(s) && !Full(s)
    ensures Occupancy.Range(0, s.total) - s.used != {}
  {
    Occupancy.RangeSize(s.total);
    if Occupancy.Range(0, s.total) - s.used == {} {
      forall i | i in Occupancy.Range(0, s.total) ensures i in s.used { assert i !in Occupancy.Range(0, s.total) - s.used; }
      SubsetSize(Occupancy.Range(0, s.total), s.used);
    }
  }

  lemma Fits(s: Span, claimed: set<nat>)
    requires SpanOk(s) && claimed <= Occupancy.Range(0, s.total)
    ensures SpanOk(Span(s.total, s.used + claimed))
  {
    Occupancy.RangeSize(s.total);
    SubsetSize(s.used + claimed, Occupancy.Range(0, s.total));
  }

  // The claimed slots as the magazine receives them.
  method Expand(k: nat, claimed: set<nat>) returns (slots: seq<Slot>)
    ensures |slots| == |claimed| && NoDup(slots) && forall s :: s in slots <==> s.span == k && s.index in claimed
  {
    slots := [];
    var rest := claimed;
    while rest != {}
      invariant rest <= claimed && |slots| + |rest| == |claimed| && NoDup(slots)
      invariant forall s :: s in slots <==> s.span == k && s.index in claimed - rest
      decreases |rest|
    {
      var i :| i in rest;
      slots := slots + [Slot(k, i)];
      rest := rest - {i};
    }
  }

  // Claimed slots enter the cache: still distinct, still taken, and nothing else changes hands.
  lemma CacheGrows(before: map<nat, Span>, cached: seq<Slot>, after: map<nat, Span>, k: nat, claimed: set<nat>, slots: seq<Slot>)
    requires k in before && CacheOk(before, cached) && claimed !! before[k].used
    requires after == before[k := Span(before[k].total, before[k].used + claimed)]
    requires NoDup(slots) && forall s :: s in slots <==> s.span == k && s.index in claimed
    ensures CacheOk(after, cached + slots) && NothingTaken(before, cached, after, cached + slots)
    ensures forall s :: Outstanding(before, cached, s) ==> Outstanding(after, cached + slots, s)
  {
    forall s | s in slots ensures s !in cached {
      assert s in cached ==> IsUsed(before, s);
    }
  }

  // A flushed slot leaves cache and span together, so what is outstanding stays the same.
  lemma Uncached(before: map<nat, Span>, cached: seq<Slot>, after: map<nat, Span>, slot: Slot)
    requires CacheOk(before, cached) && cached != [] && cached[|cached| - 1] == slot && slot.span in before
    requires after == before[slot.span := Span(before[slot.span].total, before[slot.span].used - {slot.index})]
    ensures CacheOk(after, cached[..|cached| - 1])
    ensures forall s :: Outstanding(after, cached[..|cached| - 1], s) <==> Outstanding(before, cached, s)
  {
    var rest := cached[..|cached| - 1];
    assert cached == rest + [slot];
    forall s | s in rest ensures s != slot {
      var i :| 0 <= i < |rest| && rest[i] == s;
      assert cached[i] == s && cached[i] != cached[|cached| - 1];
    }
    assert slot in cached;
    assert forall s :: s in rest ==> s in cached;
    assert forall i :: 0 <= i < |rest| ==> rest[i] == cached[i];
  }

  lemma Drawn(before: seq<Slot>, index: nat)
    requires NoDup(before) && index < |before|
    ensures var after := before[index := before[|before| - 1]][..|before| - 1];
            NoDup(after) && forall s :: s in after <==> s in before && s != before[index]
  {
    var after := before[index := before[|before| - 1]][..|before| - 1];
    forall s | s in before && s != before[index] ensures s in after {
      var i :| 0 <= i < |before| && before[i] == s;
      assert after[if i == |before| - 1 then index else i] == s;
    }
  }

  lemma SubsetSize(a: set<nat>, b: set<nat>)
    requires a <= b
    ensures |a| <= |b|
  {
    assert b == a + (b - a);
  }

  lemma TakenStepwise(a: map<nat, Span>, ca: seq<Slot>, b: map<nat, Span>, cb: seq<Slot>, c: map<nat, Span>, cc: seq<Slot>)
    requires NothingTaken(a, ca, b, cb) && NothingTaken(b, cb, c, cc)
    ensures NothingTaken(a, ca, c, cc)
  {}
}
