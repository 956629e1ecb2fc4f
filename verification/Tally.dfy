/** Counting through a per-thread map: the sum of a small weight over every thread's
    private state. Lock words hold such sums, so a step that changes one thread's
    private state must change the word by the difference of its weights. */
module Tally {

  // The sum of `w` over the map, counted as the set of pairs (t, k) with k below t's weight.
  ghost function Sum<L>(m: map<nat, L>, w: L -> nat): (n: nat)
  {
    |Pairs(m, w)|
  }

  ghost function Pairs<L>(m: map<nat, L>, w: L -> nat): set<(nat, nat)>
  {
    set t: nat, k: nat | t in m.Keys && 0 <= k < w(m[t]) :: (t, k)
  }

  ghost function Column(t: nat, n: nat): (c: set<(nat, nat)>)
    ensures |c| == n
    ensures forall p :: p in c <==> p.0 == t && p.1 < n
  {
    if n == 0 then {} else Column(t, n - 1) + {(t, n - 1)}
  }

  lemma Update<L>(m: map<nat, L>, w: L -> nat, t: nat, l: L)
    requires t in m
    ensures Sum(m[t := l], w) == Sum(m, w) - w(m[t]) + w(l)
    ensures Sum(m, w) >= w(m[t])
  {
    Split(m, w, t);
    Split(m[t := l], w, t);
    assert m[t := l] - {t} == m - {t};
  }

  lemma Split<L>(m: map<nat, L>, w: L -> nat, t: nat)
    requires t in m
    ensures Sum(m, w) == Sum(m - {t}, w) + w(m[t])
  {
    var rest := Pairs(m - {t}, w);
    var column := Column(t, w(m[t]));
    assert Pairs(m, w) == rest + column;
    assert rest !! column;
  }

  lemma Positive<L>(m: map<nat, L>, w: L -> nat, t: nat)
    requires t in m && w(m[t]) > 0
    ensures Sum(m, w) > 0
  {
    assert (t, 0) in Pairs(m, w);
  }

  lemma ZeroMeansAllZero<L>(m: map<nat, L>, w: L -> nat)
    requires Sum(m, w) == 0
    ensures forall t :: t in m ==> w(m[t]) == 0
  {
    forall t | t in m ensures w(m[t]) == 0 {
      if w(m[t]) > 0 { Positive(m, w, t); }
    }
  }

  lemma Witness<L>(m: map<nat, L>, w: L -> nat)
    requires Sum(m, w) > 0
    ensures exists t :: t in m && w(m[t]) > 0
  {
    var p :| p in Pairs(m, w);
    assert p.0 in m && w(m[p.0]) > 0;
  }

  lemma AtMostOneEach<L>(m: map<nat, L>, w: L -> nat)
    requires forall t :: t in m ==> w(m[t]) <= 1
    ensures Sum(m, w) <= |m|
    decreases |m|
  {
    if m == map[] {
      assert Pairs(m, w) == {};
    } else {
      var t :| t in m;
      var rest := m - {t};
      Split(m, w, t);
      AtMostOneEach(rest, w);
      assert rest.Keys == m.Keys - {t};
    }
  }

  // Two different threads with positive weight make the sum at least two.
  lemma PositiveTwice<L>(m: map<nat, L>, w: L -> nat, t: nat, u: nat)
    requires t in m && u in m && t != u && w(m[t]) > 0 && w(m[u]) > 0
    ensures Sum(m, w) >= 2
  {
    assert {(t, 0), (u, 0)} <= Pairs(m, w);
    SubsetSize({(t, 0), (u, 0)}, Pairs(m, w));
  }

  lemma SubsetSize<T>(a: set<T>, b: set<T>)
    requires a <= b
    ensures |a| <= |b|
  {
    assert b == a + (b - a);
  }

  // A map whose weights are all zero sums to zero.
  lemma AllZero<L>(m: map<nat, L>, w: L -> nat)
    requires forall t :: t in m ==> w(m[t]) == 0
    ensures Sum(m, w) == 0
  {
    assert Pairs(m, w) == {};
  }

  // With weights zero and one, the sum is the number of threads that weigh one.
  lemma SumOfFlags<L>(m: map<nat, L>, w: L -> nat, flagged: set<nat>)
    requires forall t :: t in m ==> w(m[t]) <= 1
    requires flagged == set t | t in m && w(m[t]) == 1
    ensures Sum(m, w) == |flagged|
    decreases |m|
  {
    if m == map[] {
      assert Pairs(m, w) == {};
    } else {
      var t :| t in m;
      Split(m, w, t);
      assert (m - {t}).Keys == m.Keys - {t};
      SumOfFlags(m - {t}, w, flagged - {t});
    }
  }
}
