/** The order in which loaded objects are initialised: a depth-first walk with an explicit
    stack of events, dependencies before dependents where cycles allow. */
module Topological {
  import opened Wrappers

  /** `names[i]` is the i-th dependency object and `needed[i]` the names it asks for; a name
      that was not loaded is ignored. */
  datatype Graph = Graph(names: seq<string>, needed: seq<seq<string>>)

  datatype Event = Discover(node: nat) | Emit(node: nat)

  datatype Object = Dependency(index: nat) | Program

  predicate Valid(g: Graph) { |g.names| == |g.needed| }

  function IndexOf(names: seq<string>, name: string): (r: Option<nat>)
    ensures r.Some? ==> r.value < |names| && names[r.value] == name
    ensures r.None? ==> name !in names
  {
    if names == [] then None
    else if names[0] == name then Some(0)
    else match IndexOf(names[1..], name)
      case None => None
      case Some(i) => Some(i + 1)
  }

  ghost predicate Edge(g: Graph, u: nat, v: nat) {
    u < |g.needed| && exists j :: 0 <= j < |g.needed[u]| && IndexOf(g.names, g.needed[u][j]) == Some(v)
  }

  ghost predicate Path(g: Graph, p: seq<nat>) {
    p != [] && forall i, j :: 0 <= i < j < |p| && j == i + 1 ==> Edge(g, p[i], p[j])
  }

  ghost predicate Reaches(g: Graph, u: nat, v: nat) {
    exists p :: Path(g, p) && p[0] == u && p[|p| - 1] == v
  }

  lemma ReachSelf(g: Graph, u: nat)
    ensures Reaches(g, u, u)
  {
    assert Path(g, [u]);
  }

  lemma ReachOn(g: Graph, u: nat, v: nat, w: nat)
    requires Reaches(g, u, v) && Edge(g, v, w)
    ensures Reaches(g, u, w)
  {
    var p :| Path(g, p) && p[0] == u && p[|p| - 1] == v;
    assert Path(g, p + [w]);
  }

  ghost predicate NoDup(order: seq<nat>) { forall i, j :: 0 <= i < j < |order| ==> order[i] != order[j] }

  // ---------------------------------------------------------------- the walk as a function

  // The discoveries the needed names add, from the j-th on.
  function Pushes(g: Graph, needed: seq<string>, visited: set<nat>): (r: seq<Event>)
  {
    if needed == [] then []
    else
      var index := IndexOf(g.names, needed[0]);
      (if index.Some? && index.value !in visited then [Discover(index.value)] else []) + Pushes(g, needed[1..], visited)
  }

  datatype Walk = Walk(visited: set<nat>, order: seq<nat>, stack: seq<Event>)

  function Start(g: Graph): Walk {
    Walk({}, [], seq(|g.names|, i requires 0 <= i < |g.names| => Discover(|g.names| - 1 - i)))
  }

  function Next(g: Graph, w: Walk): Walk
    requires w.stack != []
  {
    var top, below := w.stack[|w.stack| - 1], w.stack[..|w.stack| - 1];
    match top
    case Discover(u) =>
      if u in w.visited || u >= |g.needed| then w.(stack := below)
      else
        var visited := w.visited + {u};
        Walk(visited, w.order, below + [Emit(u)] + Pushes(g, g.needed[u], visited))
    case Emit(u) => Walk(w.visited, w.order + [u], below)
  }

  // The walk after `n` events.
  function After(g: Graph, w: Walk, n: nat): Walk
    decreases n
  {
    if n == 0 || w.stack == [] then w else After(g, Next(g, w), n - 1)
  }

  // ---------------------------------------------------------------- what the order promises

  // An object comes after its dependencies, and after everything earlier ones or its dependencies
  // reach, except through what leads back to it.
  ghost predicate Ordered(g: Graph, order: seq<nat>) {
    forall k, v, w :: 0 <= k < |order| && (v in order[..k] || Edge(g, order[k], v)) && !Reaches(g, v, order[k]) && Reaches(g, v, w)
      ==> w in order[..k]
  }

  // Everything the k-th object reaches and that cannot lead back to it came earlier.
  ghost predicate ChainsFirst(g: Graph, order: seq<nat>, k: nat)
    requires k < |order|
  {
    forall w :: Reaches(g, order[k], w) && !Reaches(g, w, order[k]) ==> w in order[..k]
  }

  // The same for the direct dependencies of the objects on a cycle with the k-th.
  ghost predicate ExitsFirst(g: Graph, order: seq<nat>, k: nat)
    requires k < |order|
  {
    forall a, b :: Reaches(g, order[k], a) && Reaches(g, a, order[k]) && Edge(g, a, b) && !Reaches(g, b, order[k]) ==> b in order[..k]
  }

  // An object comes after everything it reaches that cannot lead back exactly when it comes after
  // the dependencies by which its cycles are left; an object on no cycle always does.
  lemma ChainsByExits(g: Graph, order: seq<nat>, k: nat)
    requires Ordered(g, order) && k < |order|
    ensures ChainsFirst(g, order, k) <==> ExitsFirst(g, order, k)
    ensures (forall a :: Reaches(g, order[k], a) && Reaches(g, a, order[k]) ==> a == order[k]) ==> ChainsFirst(g, order, k)
  {
    var u := order[k];
    if ChainsFirst(g, order, k) {
      forall a, b | Reaches(g, u, a) && Edge(g, a, b) ensures Reaches(g, u, b) { ReachOn(g, u, a, b); }
    }
    forall a, b | a == u && Edge(g, a, b) && !Reaches(g, b, u) ensures b in order[..k] { ReachSelf(g, b); }
    if ExitsFirst(g, order, k) {
      forall w | Reaches(g, u, w) && !Reaches(g, w, u) ensures w in order[..k] {
        var p :| Path(g, p) && p[0] == u && p[|p| - 1] == w;
        ReachSelf(g, u);
        ChainFirst(g, order, k, p, 0);
      }
    }
  }

  // Along a chain: past the last object on a cycle with the k-th, everything came earlier.
  lemma ChainFirst(g: Graph, order: seq<nat>, k: nat, p: seq<nat>, i: nat)
    requires Ordered(g, order) && k < |order| && ExitsFirst(g, order, k)
    requires i < |p| && Path(g, p) && Reaches(g, order[k], p[i]) && Reaches(g, p[i], order[k])
    requires !Reaches(g, p[|p| - 1], order[k])
    ensures p[|p| - 1] in order[..k]
    decreases |p| - i
  {
    ReachOn(g, order[k], p[i], p[i + 1]);
    if Reaches(g, p[i + 1], order[k]) {
      ChainFirst(g, order, k, p, i + 1);
    } else {
      assert Path(g, p[i + 1..]);
      assert Reaches(g, p[i + 1], p[|p| - 1]);
    }
  }

  // An object waiting to be emitted leads to everything above it on the stack, and is visited
  // but not emitted.
  ghost predicate Shape(g: Graph, visited: set<nat>, order: seq<nat>, stack: seq<Event>) {
    && (forall i :: 0 <= i < |stack| ==> stack[i].node < |g.names|)
    && (forall i, j :: 0 <= i < j < |stack| && stack[i].Emit? ==> Reaches(g, stack[i].node, stack[j].node))
    && (forall i, j :: 0 <= i < j < |stack| && stack[i].Emit? && stack[j].Emit? ==> stack[i] != stack[j])
    && (forall n :: n in visited <==> n in order || Emit(n) in stack)
    && (forall i :: 0 <= i < |stack| && stack[i].Emit? ==> stack[i].node !in order)
  }

  // A dependency not visited yet is still to be discovered above whatever waits for it, and
  // every object is visited or still to be discovered.
  ghost predicate Covered(g: Graph, visited: set<nat>, stack: seq<Event>) {
    && (forall i, v :: 0 <= i < |stack| && stack[i].Emit? && Edge(g, stack[i].node, v) ==> v in visited || Discover(v) in stack[i + 1..])
    && (forall n: nat :: n < |g.names| ==> n in visited || Discover(n) in stack)
  }

  ghost predicate Waiting(g: Graph, visited: set<nat>, order: seq<nat>, stack: seq<Event>) {
    Shape(g, visited, order, stack) && Covered(g, visited, stack) && NoDup(order) && Ordered(g, order)
    && (forall n :: n in visited ==> n < |g.names|) && Settled(g, visited, order)
  }

  // Every dependency of an emitted object is visited.
  ghost predicate Settled(g: Graph, visited: set<nat>, order: seq<nat>) {
    forall u, v :: u in order && Edge(g, u, v) ==> v in visited
  }

  lemma TopDropped(g: Graph, visited: set<nat>, stack: seq<Event>)
    requires stack != [] && Covered(g, visited, stack)
    requires var e := stack[|stack| - 1]; e.Discover? ==> e.node in visited
    ensures Covered(g, visited, stack[..|stack| - 1])
  {
    var n := |stack| - 1;
    assert stack == stack[..n] + [stack[n]];
    forall i, v | 0 <= i < n && stack[i].Emit? && Edge(g, stack[i].node, v) ensures v in visited || Discover(v) in stack[..n][i + 1..] {
      assert stack[i + 1..] == stack[..n][i + 1..] + [stack[n]];
    }
  }

  // Dropping a stale discovery.
  lemma Stale(g: Graph, visited: set<nat>, order: seq<nat>, stack: seq<Event>)
    requires stack != [] && Waiting(g, visited, order, stack)
    requires var e := stack[|stack| - 1]; e.Discover? && e.node in visited
    ensures Waiting(g, visited, order, stack[..|stack| - 1])
  {
    var n := |stack| - 1;
    assert stack == stack[..n] + [stack[n]];
    TopDropped(g, visited, stack);
  }

  // Emitting the object on top: each dependency is visited by now, so it is emitted or below.
  lemma Emitted(g: Graph, visited: set<nat>, order: seq<nat>, stack: seq<Event>)
    requires stack != [] && stack[|stack| - 1].Emit? && Waiting(g, visited, order, stack)
    ensures Waiting(g, visited, order + [stack[|stack| - 1].node], stack[..|stack| - 1])
  {
    var n := |stack| - 1;
    var u := stack[n].node;
    assert stack == stack[..n] + [stack[n]];
    DependenciesDone(g, visited, order, stack);
    forall v, w | (v in order || Edge(g, u, v)) && !Reaches(g, v, u) && Reaches(g, v, w) ensures w in order {
      var p :| Path(g, p) && p[0] == v && p[|p| - 1] == w;
      ChainDone(g, visited, order, stack, p);
    }
    OrderedWith(g, order, u);
    TopDropped(g, visited, stack);
  }

  lemma DependenciesDone(g: Graph, visited: set<nat>, order: seq<nat>, stack: seq<Event>)
    requires stack != [] && stack[|stack| - 1].Emit? && Shape(g, visited, order, stack) && Covered(g, visited, stack)
    ensures var u := stack[|stack| - 1].node; forall v :: Edge(g, u, v) ==> v in visited && (v in order || Reaches(g, v, u))
  {
    var n := |stack| - 1;
    var u := stack[n].node;
    forall v | Edge(g, u, v) ensures v in visited && (v in order || Reaches(g, v, u)) {
      assert stack[n + 1..] == [];
      WaitsOrEmitted(g, visited, order, stack, v);
    }
  }

  // A visited object is emitted already, or waits and so leads to the object on top.
  lemma WaitsOrEmitted(g: Graph, visited: set<nat>, order: seq<nat>, stack: seq<Event>, v: nat)
    requires stack != [] && stack[|stack| - 1].Emit? && Shape(g, visited, order, stack) && v in visited
    ensures v in order || Reaches(g, v, stack[|stack| - 1].node)
  {
    if v !in order {
      assert Emit(v) in stack;
      var i :| 0 <= i < |stack| && stack[i] == Emit(v);
      if i == |stack| - 1 { ReachSelf(g, v); }
    }
  }

  lemma ReachVia(g: Graph, p: seq<nat>, u: nat)
    requires Path(g, p) && Reaches(g, p[|p| - 1], u)
    ensures Reaches(g, p[0], u)
  {
    var q :| Path(g, q) && q[0] == p[|p| - 1] && q[|q| - 1] == u;
    assert Path(g, p + q[1..]);
  }

  // Whatever an emitted object reaches is emitted, unless the object leads to the one on top.
  lemma {:induction false} ChainDone(g: Graph, visited: set<nat>, order: seq<nat>, stack: seq<Event>, p: seq<nat>)
    requires stack != [] && stack[|stack| - 1].Emit? && Shape(g, visited, order, stack) && Settled(g, visited, order)
    requires Path(g, p) && !Reaches(g, p[0], stack[|stack| - 1].node)
    requires p[0] in order
    ensures p[|p| - 1] in order
    decreases |p|
  {
    if |p| > 1 {
      var front := p[..|p| - 1];
      ChainDone(g, visited, order, stack, front);
      assert Edge(g, front[|front| - 1], p[|p| - 1]);
      WaitsOrEmitted(g, visited, order, stack, p[|p| - 1]);
      if p[|p| - 1] !in order { ReachVia(g, p, stack[|stack| - 1].node); }
    }
  }

  // Visiting an object: it waits beneath the discoveries of its unvisited dependencies.
  lemma Discovered(g: Graph, visited: set<nat>, order: seq<nat>, below: seq<Event>, u: nat, pushed: seq<Event>)
    requires Waiting(g, visited, order, below + [Discover(u)]) && u !in visited && PushedFor(g, u, visited + {u}, pushed)
    ensures Waiting(g, visited + {u}, order, below + [Emit(u)] + pushed)
  {
    var stack := below + [Discover(u)];
    assert stack[|below|].node < |g.names|;
    DiscoveredShape(g, visited, order, below, u, pushed);
    DiscoveredCovered(g, visited, below, u, pushed);
  }

  // The discoveries pushed for an object: all its dependencies not visited, and nothing else.
  ghost predicate PushedFor(g: Graph, u: nat, visited: set<nat>, pushed: seq<Event>) {
    && (forall i :: 0 <= i < |pushed| ==> pushed[i].Discover? && pushed[i].node < |g.names| && Edge(g, u, pushed[i].node))
    && (forall v :: Edge(g, u, v) ==> v in visited || Discover(v) in pushed)
  }

  lemma DiscoveredShape(g: Graph, visited: set<nat>, order: seq<nat>, base: seq<Event>, u: nat, pushed: seq<Event>)
    requires Shape(g, visited, order, base + [Discover(u)]) && u !in visited
    requires PushedFor(g, u, visited + {u}, pushed)
    ensures Shape(g, visited + {u}, order, base + [Emit(u)] + pushed)
  {
    var before, after := base + [Discover(u)], base + [Emit(u)] + pushed;
    forall i | 0 <= i < |base| ensures after[i] == before[i] {}
    forall i, j | 0 <= i < j < |after| && after[i].Emit? ensures Reaches(g, after[i].node, after[j].node) {
      if i < |base| {
        assert Reaches(g, before[i].node, before[if j < |base| then j else |base|].node);
        if j > |base| { ReachOn(g, before[i].node, u, after[j].node); }
      } else {
        ReachSelf(g, u);
        ReachOn(g, u, u, after[j].node);
      }
    }
    forall n ensures n in visited + {u} <==> n in order || Emit(n) in after {
      assert Emit(n) in before <==> Emit(n) in base;
      assert Emit(n) in after <==> Emit(n) in base || n == u;
    }
  }

  lemma DiscoveredCovered(g: Graph, visited: set<nat>, base: seq<Event>, u: nat, pushed: seq<Event>)
    requires Covered(g, visited, base + [Discover(u)])
    requires PushedFor(g, u, visited + {u}, pushed)
    ensures Covered(g, visited + {u}, base + [Emit(u)] + pushed)
  {
    var before, after := base + [Discover(u)], base + [Emit(u)] + pushed;
    forall i, v | 0 <= i < |after| && after[i].Emit? && Edge(g, after[i].node, v) ensures v in visited + {u} || Discover(v) in after[i + 1..] {
      if i < |base| {
        assert before[i] == base[i] == after[i];
        assert before[i + 1..] == base[i + 1..] + [Discover(u)];
        assert after[i + 1..] == base[i + 1..] + [Emit(u)] + pushed;
      } else if i == |base| {
        assert after[i + 1..] == pushed;
      }
    }
  }

  lemma OrderedWith(g: Graph, order: seq<nat>, u: nat)
    requires Ordered(g, order)
    requires forall v, w :: (v in order || Edge(g, u, v)) && !Reaches(g, v, u) && Reaches(g, v, w) ==> w in order
    ensures Ordered(g, order + [u])
  {
    var more := order + [u];
    forall k, v, w | 0 <= k < |more| && (v in more[..k] || Edge(g, more[k], v)) && !Reaches(g, v, more[k]) && Reaches(g, v, w)
      ensures w in more[..k]
    {
      assert more[..k] == if k < |order| then order[..k] else order;
    }
  }

  lemma StartWaiting(g: Graph, stack: seq<Event>)
    requires Valid(g) && |stack| == |g.names| && forall i :: 0 <= i < |stack| ==> stack[i] == Discover(|stack| - 1 - i)
    ensures Waiting(g, {}, [], stack)
  {
    forall n: nat | n < |g.names| ensures Discover(n) in stack {
      assert stack[|stack| - 1 - n] == Discover(n);
    }
  }

  lemma VisitedFits(visited: set<nat>, n: nat)
    requires forall v :: v in visited ==> v < n
    ensures |visited| <= n
    decreases n
  {
    if n > 0 {
      VisitedFits(visited - {n - 1}, n - 1);
    } else {
      assert visited == {};
    }
  }

  lemma {:induction false} AfterOne(g: Graph, w: Walk, n: nat)
    ensures After(g, w, n + 1) == if After(g, w, n).stack == [] then After(g, w, n) else Next(g, After(g, w, n))
    decreases n
  {
    if n > 0 && w.stack != [] { AfterOne(g, Next(g, w), n - 1); }
  }

  // Where the pushed discoveries come from, and what is pushed.
  lemma {:induction false} PushedFrom(g: Graph, needed: seq<string>, visited: set<nat>, i: nat)
    requires i < |Pushes(g, needed, visited)|
    ensures var r := Pushes(g, needed, visited);
            r[i].Discover? && exists j :: 0 <= j < |needed| && IndexOf(g.names, needed[j]) == Some(r[i].node)
  {
    var r, rest := Pushes(g, needed, visited), Pushes(g, needed[1..], visited);
    var k := |r| - |rest|;
    if i >= k {
      PushedFrom(g, needed[1..], visited, i - k);
      var j :| 0 <= j < |needed| - 1 && IndexOf(g.names, needed[1..][j]) == Some(rest[i - k].node);
      assert needed[j + 1] == needed[1..][j];
    } else {
      assert IndexOf(g.names, needed[0]) == Some(r[i].node);
    }
  }

  lemma {:induction false} PushedAll(g: Graph, needed: seq<string>, visited: set<nat>, j: nat, v: nat)
    requires j < |needed| && IndexOf(g.names, needed[j]) == Some(v)
    ensures v in visited || Discover(v) in Pushes(g, needed, visited)
  {
    if j > 0 { PushedAll(g, needed[1..], visited, j - 1, v); }
  }

  // The pushed discoveries are exactly the loaded, unvisited dependencies.
  lemma PushedExactly(g: Graph, u: nat, visited: set<nat>)
    requires u < |g.needed|
    ensures PushedFor(g, u, visited, Pushes(g, g.needed[u], visited))
  {
    var needed, pushed := g.needed[u], Pushes(g, g.needed[u], visited);
    forall i | 0 <= i < |pushed| ensures pushed[i].Discover? && pushed[i].node < |g.names| && Edge(g, u, pushed[i].node) {
      PushedFrom(g, needed, visited, i);
    }
    forall v | Edge(g, u, v) ensures v in visited || Discover(v) in pushed {
      var j :| 0 <= j < |needed| && IndexOf(g.names, needed[j]) == Some(v);
      PushedAll(g, needed, visited, j, v);
    }
  }

  ghost predicate Underway(g: Graph, w: Walk) {
    Valid(g) && Waiting(g, w.visited, w.order, w.stack) && |w.visited| <= |g.names|
  }

  // What is left to do gets less with each event.
  ghost predicate Less(w: Walk, w': Walk) {
    |w.visited| < |w'.visited| || (|w.visited| == |w'.visited| && |w'.stack| < |w.stack|)
  }

  // One event of the walk.
  lemma NextUnderway(g: Graph, w: Walk)
    requires w.stack != [] && Underway(g, w)
    ensures Underway(g, Next(g, w)) && Less(w, Next(g, w))
  {
    match w.stack[|w.stack| - 1]
    case Emit(u) => Emitted(g, w.visited, w.order, w.stack);
    case Discover(u) =>
      TopNode(g, w);
      if u in w.visited { Stale(g, w.visited, w.order, w.stack); }
      else { DiscoveredNext(g, w, u); }
  }

  lemma TopNode(g: Graph, w: Walk)
    requires w.stack != [] && Underway(g, w)
    ensures w.stack[|w.stack| - 1].node < |g.names|
  {}

  lemma DiscoveredNext(g: Graph, w: Walk, u: nat)
    requires w.stack != [] && Underway(g, w) && w.stack[|w.stack| - 1] == Discover(u) && u !in w.visited && u < |g.needed|
    ensures Underway(g, Next(g, w)) && Less(w, Next(g, w))
  {
    var below := w.stack[..|w.stack| - 1];
    assert w.stack == below + [Discover(u)];
    PushedExactly(g, u, w.visited + {u});
    Discovered(g, w.visited, w.order, below, u, Pushes(g, g.needed[u], w.visited + {u}));
    VisitedFits(w.visited + {u}, |g.names|);
  }

  lemma {:induction false} WalkUnderway(g: Graph, n: nat)
    requires Valid(g)
    ensures Underway(g, After(g, Start(g), n))
    decreases n
  {
    if n == 0 {
      StartWaiting(g, Start(g).stack);
    } else {
      WalkUnderway(g, n - 1);
      AfterOne(g, Start(g), n - 1);
      if After(g, Start(g), n - 1).stack != [] { NextUnderway(g, After(g, Start(g), n - 1)); }
    }
  }

  lemma WalkGoesOn(g: Graph, n: nat)
    requires Valid(g) && After(g, Start(g), n).stack != []
    ensures var w := After(g, Start(g), n);
            w.stack[|w.stack| - 1].node < |g.needed| && After(g, Start(g), n + 1) == Next(g, w)
            && Less(w, Next(g, w)) && |Next(g, w).visited| <= |g.names|
  {
    WalkUnderway(g, n);
    AfterOne(g, Start(g), n);
    TopNode(g, After(g, Start(g), n));
    NextUnderway(g, After(g, Start(g), n));
  }

  lemma WalkEnded(g: Graph, n: nat)
    requires Valid(g) && After(g, Start(g), n).stack == []
    ensures var order := After(g, Start(g), n).order;
            |order| == |g.names| && NoDup(order) && Ordered(g, order) && forall n: nat :: n in order <==> n < |g.names|
  {
    WalkUnderway(g, n);
    Complete(g, After(g, Start(g), n).visited, After(g, Start(g), n).order);
  }

  // The walk ends, emits every dependency object once and the program last, and each object
  // comes after each dependency of its own that does not lead back to it, with all that
  // dependency reaches.
  method TopologicalOrder(g: Graph) returns (order: seq<Object>, ghost emitted: seq<nat>, ghost n: nat)
    requires Valid(g)
    ensures |order| == |g.names| + 1 && order[|g.names|] == Program
    ensures |emitted| == |g.names| && forall i :: 0 <= i < |emitted| ==> order[i] == Dependency(emitted[i])
    ensures NoDup(emitted) && forall n: nat :: n in emitted <==> n < |g.names|
    ensures Ordered(g, emitted)
    ensures After(g, Start(g), n).stack == [] && After(g, Start(g), n).order == emitted
  {
    var visited: set<nat> := {};
    var stack := seq(|g.names|, i requires 0 <= i < |g.names| => Discover(|g.names| - 1 - i));
    ghost var walk := Start(g);
    order, n := [], 0;
    while stack != []
      invariant walk == After(g, Start(g), n)
      invariant visited == walk.visited && stack == walk.stack && order == Objects(walk.order)
      decreases if |walk.visited| <= |g.names| then |g.names| - |walk.visited| else 0, |walk.stack|
    {
      WalkGoesOn(g, n);
      var event := stack[|stack| - 1];
      stack := stack[..|stack| - 1];
      match event {
        case Discover(u) =>
          if u !in visited {
            visited := visited + {u};
            var pushed := Push(g, u, visited);
            stack := stack + [Emit(u)] + pushed;
          }
        case Emit(u) =>
          ObjectsGrow(walk.order, u);
          order := order + [Dependency(u)];
      }
      walk, n := Next(g, walk), n + 1;
    }
    emitted := walk.order;
    WalkEnded(g, n);
    order := order + [Program];
  }

  lemma ObjectsGrow(order: seq<nat>, u: nat)
    ensures Objects(order + [u]) == Objects(order) + [Dependency(u)]
  {
    assert (order + [u])[..|order|] == order;
  }

  function Objects(order: seq<nat>): (r: seq<Object>)
    ensures |r| == |order| && forall i :: 0 <= i < |order| ==> r[i] == Dependency(order[i])
  {
    if order == [] then [] else Objects(order[..|order| - 1]) + [Dependency(order[|order| - 1])]
  }

  // The discoveries an object's list of needed names adds.
  method Push(g: Graph, u: nat, visited: set<nat>) returns (pushed: seq<Event>)
    requires u < |g.needed|
    ensures pushed == Pushes(g, g.needed[u], visited)
  {
    pushed := [];
    var j := 0;
    while j < |g.needed[u]|
      invariant j <= |g.needed[u]|
      invariant pushed + Pushes(g, g.needed[u][j..], visited) == Pushes(g, g.needed[u], visited)
    {
      var index := IndexOf(g.names, g.needed[u][j]);
      assert g.needed[u][j..][1..] == g.needed[u][j + 1..];
      if index.Some? && index.value !in visited {
        pushed := pushed + [Discover(index.value)];
      }
      j := j + 1;
    }
  }

  // Three objects: the first needs the third and then the second, which needs the first.
  function Tangle(): Graph { Graph(["v", "u", "w"], [["w", "u"], ["v"], []]) }

  // The second reaches the third only through the first, which leads back to it: it is emitted
  // before the third, although the third cannot lead back.
  lemma IndirectCanComeLater()
    ensures var g := Tangle();
            && After(g, Start(g), 8) == Walk({0, 1, 2}, [1, 2, 0], [])
            && Reaches(g, 1, 2) && !Reaches(g, 2, 1)
  {
    TangleWalk();
    TangleEdges();
    assert Path(Tangle(), [1, 0, 2]);
    forall p | Path(Tangle(), p) && p[0] == 2 ensures |p| == 1 {
      if |p| > 1 { FirstEdge(Tangle(), p); }
    }
  }

  lemma FirstEdge(g: Graph, p: seq<nat>)
    requires Path(g, p) && |p| > 1
    ensures Edge(g, p[0], p[1])
  {}

  lemma TangleEdges()
    ensures Edge(Tangle(), 1, 0) && Edge(Tangle(), 0, 2) && forall v :: !Edge(Tangle(), 2, v)
  {
    var g := Tangle();
    TangleNames();
    assert IndexOf(g.names, g.needed[1][0]) == Some(0) && IndexOf(g.names, g.needed[0][0]) == Some(2);
  }

  lemma TangleNames()
    ensures IndexOf(Tangle().names, "v") == Some(0) && IndexOf(Tangle().names, "u") == Some(1) && IndexOf(Tangle().names, "w") == Some(2)
  {
    var names := Tangle().names;
    assert names[1..] == ["u", "w"] && names[1..][1..] == ["w"];
    assert "v"[0] != "u"[0] && "v"[0] != "w"[0] && "u"[0] != "w"[0];
  }

  lemma FourMore(g: Graph, a: Walk, b: Walk, c: Walk, d: Walk, e: Walk, n: nat)
    requires a.stack != [] && b.stack != [] && c.stack != [] && d.stack != []
    requires Next(g, a) == b && Next(g, b) == c && Next(g, c) == d && Next(g, d) == e
    ensures After(g, a, n + 4) == After(g, e, n)
  {
    assert After(g, a, n + 4) == After(g, b, n + 3) == After(g, c, n + 2) == After(g, d, n + 1);
  }

  lemma TanglePushes()
    ensures Pushes(Tangle(), ["w", "u"], {0}) == [Discover(2), Discover(1)]
    ensures Pushes(Tangle(), ["v"], {0, 1}) == [] && Pushes(Tangle(), [], {0, 1, 2}) == []
  {
    TangleNames();
    assert ["w", "u"][1..] == ["u"] && ["u"][1..] == [] && ["v"][1..] == [];
    assert Pushes(Tangle(), ["u"], {0}) == [Discover(1)];
  }

  lemma TangleStart()
    ensures Start(Tangle()).stack == [Discover(2), Discover(1), Discover(0)]
  {}

  lemma TangleWalk()
    ensures After(Tangle(), Start(Tangle()), 8) == Walk({0, 1, 2}, [1, 2, 0], [])
  {
    var w4 := Walk({0, 1, 2}, [1], [Discover(2), Discover(1), Emit(0), Emit(2)]);
    TangleFirst(w4);
    TangleLast(w4);
  }

  const W1 := Walk({0}, [], [Discover(2), Discover(1), Emit(0), Discover(2), Discover(1)])
  const W2 := Walk({0, 1}, [], [Discover(2), Discover(1), Emit(0), Discover(2), Emit(1)])
  const W3 := Walk({0, 1}, [1], [Discover(2), Discover(1), Emit(0), Discover(2)])

  lemma TangleFirst(w4: Walk)
    requires w4 == Walk({0, 1, 2}, [1], [Discover(2), Discover(1), Emit(0), Emit(2)])
    ensures After(Tangle(), Start(Tangle()), 8) == After(Tangle(), w4, 4)
  {
    TangleOne();
    TangleTwo();
    TangleFour(w4);
    assert Next(Tangle(), W2) == W3;
    FourMore(Tangle(), Start(Tangle()), W1, W2, W3, w4, 4);
  }

  lemma TangleOne()
    ensures Start(Tangle()).stack != [] && Next(Tangle(), Start(Tangle())) == W1
  {
    TanglePushes();
    TangleStart();
    Visits(Tangle(), Start(Tangle()), [Discover(2), Discover(1)], 0, W1);
  }

  lemma TangleTwo()
    ensures Next(Tangle(), W1) == W2
  {
    TanglePushes();
    Visits(Tangle(), W1, [Discover(2), Discover(1), Emit(0), Discover(2)], 1, W2);
  }

  lemma TangleFour(w4: Walk)
    requires w4 == Walk({0, 1, 2}, [1], [Discover(2), Discover(1), Emit(0), Emit(2)])
    ensures Next(Tangle(), W3) == w4
  {
    TanglePushes();
    Visits(Tangle(), W3, [Discover(2), Discover(1), Emit(0)], 2, w4);
  }

  lemma Visits(g: Graph, w: Walk, below: seq<Event>, u: nat, w': Walk)
    requires w.stack == below + [Discover(u)] && u !in w.visited && u < |g.needed|
    requires w'.visited == w.visited + {u} && w'.order == w.order
    requires w'.stack == below + [Emit(u)] + Pushes(g, g.needed[u], w'.visited)
    ensures Next(g, w) == w'
  {
    assert w.stack[..|w.stack| - 1] == below;
  }

  lemma TangleLast(w4: Walk)
    requires w4 == Walk({0, 1, 2}, [1], [Discover(2), Discover(1), Emit(0), Emit(2)])
    ensures After(Tangle(), w4, 4) == Walk({0, 1, 2}, [1, 2, 0], [])
  {
    var g := Tangle();
    var w5 := Walk({0, 1, 2}, [1, 2], [Discover(2), Discover(1), Emit(0)]);
    var w6 := Walk({0, 1, 2}, [1, 2, 0], [Discover(2), Discover(1)]);
    FourMore(g, w4, w5, w6, w6.(stack := [Discover(2)]), w6.(stack := []), 0);
  }

  lemma Complete(g: Graph, visited: set<nat>, emitted: seq<nat>)
    requires Waiting(g, visited, emitted, [])
    ensures |emitted| == |g.names| && forall n: nat :: n in emitted <==> n < |g.names|
  {
    forall n: nat ensures n in emitted <==> n < |g.names| {
      assert n in visited <==> n in emitted || Emit(n) in [];
    }
    CountsAll(emitted, |g.names|);
  }

  lemma {:induction false} CountsAll(list: seq<nat>, n: nat)
    requires NoDup(list) && forall k: nat :: k in list <==> k < n
    ensures |list| == n
  {
    assert |list| > 0 ==> list[0] in list;
    if n > 0 {
      assert n - 1 in list;
      var i :| 0 <= i < |list| && list[i] == n - 1;
      var rest := list[..i] + list[i + 1..];
      forall k: nat ensures k in rest <==> k < n - 1 {
        if k in list && k != n - 1 {
          var j :| 0 <= j < |list| && list[j] == k;
          assert rest[if j < i then j else j - 1] == k;
        }
        assert n - 1 !in rest;
      }
      CountsAll(rest, n - 1);
    }
  }
}
