/** The walk with the explicit stack is the recursive depth-first walk: it marks an object, visits
    what the object needs, the last name first, and emits the object. */
module DepthFirst {
  import opened Wrappers
  import opened Topological

  // The loaded objects among the needed names.
  function Loaded(g: Graph, needed: seq<string>): seq<nat> {
    if needed == [] then []
    else
      var index := IndexOf(g.names, needed[0]);
      (if index.Some? then [index.value] else []) + Loaded(g, needed[1..])
  }

  function Unvisited(g: Graph, visited: set<nat>): set<nat> { set u: nat | u < |g.needed| && u !in visited }

  lemma Fewer(g: Graph, visited: set<nat>, later: set<nat>, u: nat)
    requires u < |g.needed| && u !in visited && visited + {u} <= later
    ensures |Unvisited(g, later)| < |Unvisited(g, visited)|
  {
    FewerOrEqual(Unvisited(g, later), Unvisited(g, visited) - {u});
  }

  lemma {:induction false} FewerOrEqual(a: set<nat>, b: set<nat>)
    requires a <= b
    ensures |a| <= |b|
    decreases b
  {
    if a != {} {
      var x :| x in a;
      FewerOrEqual(a - {x}, b - {x});
    }
  }

  datatype Visited = Visited(marked: set<nat>, order: seq<nat>)

  // Visits the objects of a list from its end.
  function Visit(g: Graph, todo: seq<nat>, v: Visited): (r: Visited)
    ensures v.marked <= r.marked
    decreases |Unvisited(g, v.marked)|, |todo|
  {
    if todo == [] then v
    else
      var u, rest := todo[|todo| - 1], todo[..|todo| - 1];
      if u in v.marked || u >= |g.needed| then Visit(g, rest, v)
      else
        Fewer(g, v.marked, v.marked + {u}, u);
        var below := Visit(g, Loaded(g, g.needed[u]), Visited(v.marked + {u}, v.order));
        Fewer(g, v.marked, below.marked, u);
        Visit(g, rest, Visited(below.marked, below.order + [u]))
  }

  function All(n: nat): seq<nat> { seq(n, i requires 0 <= i < n => n - 1 - i) }

  // ---------------------------------------------------------------- what is visited already

  function Unmarked(todo: seq<nat>, marked: set<nat>): seq<nat> {
    if todo == [] then [] else (if todo[0] in marked then [] else [todo[0]]) + Unmarked(todo[1..], marked)
  }

  lemma {:induction false} UnmarkedLast(todo: seq<nat>, u: nat, marked: set<nat>)
    ensures Unmarked(todo + [u], marked) == Unmarked(todo, marked) + if u in marked then [] else [u]
  {
    if todo == [] {
      assert Unmarked([u][1..], marked) == [];
    } else {
      FrontAndBack(todo, u);
      UnmarkedLast(todo[1..], u, marked);
      Joined(if todo[0] in marked then [] else [todo[0]], Unmarked(todo[1..], marked), if u in marked then [] else [u]);
    }
  }

  lemma FrontAndBack(todo: seq<nat>, u: nat)
    requires todo != []
    ensures (todo + [u])[1..] == todo[1..] + [u] && (todo + [u])[0] == todo[0] && todo + [u] != []
  {}

  lemma Joined(a: seq<nat>, b: seq<nat>, c: seq<nat>)
    ensures a + (b + c) == (a + b) + c
  {}

  // Leaving out what is visited already makes no difference.
  lemma {:induction false} MarkedSkipped(g: Graph, todo: seq<nat>, marked: set<nat>, v: Visited)
    requires marked <= v.marked
    ensures Visit(g, Unmarked(todo, marked), v) == Visit(g, todo, v)
    decreases |todo|
  {
    if todo != [] {
      var u, rest := todo[|todo| - 1], todo[..|todo| - 1];
      assert todo == rest + [u];
      UnmarkedLast(rest, u, marked);
      if u in v.marked || u >= |g.needed| {
        MarkedSkipped(g, rest, marked, v);
        assert Unmarked(rest, marked) + [] == Unmarked(rest, marked);
        VisitSkips(g, Unmarked(rest, marked), u, v);
        VisitSkips(g, rest, u, v);
      } else {
        VisitEnters(g, Unmarked(rest, marked), u, v);
        VisitEnters(g, rest, u, v);
        MarkedSkipped(g, rest, marked, Entered(g, u, v));
      }
    }
  }

  lemma VisitSkips(g: Graph, rest: seq<nat>, u: nat, v: Visited)
    requires u in v.marked || u >= |g.needed|
    ensures Visit(g, rest + [u], v) == Visit(g, rest, v)
  {
    assert (rest + [u])[..|rest|] == rest;
  }

  // The object, with everything below it.
  function Entered(g: Graph, u: nat, v: Visited): (r: Visited)
    requires u < |g.needed|
    ensures v.marked + {u} <= r.marked
  {
    var below := Visit(g, Loaded(g, g.needed[u]), Visited(v.marked + {u}, v.order));
    Visited(below.marked, below.order + [u])
  }

  lemma VisitEnters(g: Graph, rest: seq<nat>, u: nat, v: Visited)
    requires u !in v.marked && u < |g.needed|
    ensures Visit(g, rest + [u], v) == Visit(g, rest, Entered(g, u, v))
  {
    assert (rest + [u])[..|rest|] == rest;
  }

  // ---------------------------------------------------------------- the stack

  function Discoveries(todo: seq<nat>): (r: seq<Event>)
    ensures |r| == |todo|
  {
    seq(|todo|, i requires 0 <= i < |todo| => Discover(todo[i]))
  }

  lemma {:induction false} PushesAre(g: Graph, needed: seq<string>, visited: set<nat>)
    ensures Pushes(g, needed, visited) == Discoveries(Unmarked(Loaded(g, needed), visited))
  {
    if needed != [] {
      PushesAre(g, needed[1..], visited);
      var index := IndexOf(g.names, needed[0]);
      if index.Some? {
        assert Loaded(g, needed)[1..] == Loaded(g, needed[1..]);
      } else {
        assert Loaded(g, needed) == Loaded(g, needed[1..]);
      }
    }
  }

  lemma {:induction false} AfterPlus(g: Graph, w: Walk, a: nat, b: nat)
    ensures After(g, w, a + b) == After(g, After(g, w, a), b)
    decreases a
  {
    if a > 0 && w.stack != [] { AfterPlus(g, Next(g, w), a - 1, b); }
  }

  // The walk with a list to visit on its stack, and the walk past it.
  function Facing(v: Visited, base: seq<Event>, todo: seq<nat>): Walk { Walk(v.marked, v.order, base + Discoveries(todo)) }

  function Past(v: Visited, base: seq<Event>): Walk { Walk(v.marked, v.order, base) }

  // Whatever lies beneath them on the stack, the discoveries of a list do what visiting it does.
  lemma {:induction false} Simulates(g: Graph, todo: seq<nat>, v: Visited, base: seq<Event>) returns (n: nat)
    ensures After(g, Facing(v, base, todo), n) == Past(Visit(g, todo, v), base)
    decreases |Unvisited(g, v.marked)|, |todo|
  {
    if todo == [] {
      n := 0;
      assert base + Discoveries(todo) == base;
    } else {
      var u, rest := todo[|todo| - 1], todo[..|todo| - 1];
      if u in v.marked || u >= |g.needed| {
        n := Simulates(g, rest, v, base);
        Skipped(g, todo, v, base, n);
        n := n + 1;
      } else {
        Fewer(g, v.marked, v.marked + {u}, u);
        Fewer(g, v.marked, Entered(g, u, v).marked, u);
        var inner := Visited(v.marked + {u}, v.order);
        var a := Simulates(g, Unmarked(Loaded(g, g.needed[u]), inner.marked), inner, base + Discoveries(rest) + [Emit(u)]);
        var b := Simulates(g, rest, Entered(g, u, v), base);
        n := Continued(g, todo, v, base, a, b);
      }
    }
  }

  lemma Continued(g: Graph, todo: seq<nat>, v: Visited, base: seq<Event>, a: nat, b: nat) returns (n: nat)
    requires todo != [] && todo[|todo| - 1] !in v.marked && todo[|todo| - 1] < |g.needed|
    requires var u, rest := todo[|todo| - 1], todo[..|todo| - 1];
             var inner := Visited(v.marked + {u}, v.order);
             && After(g, Opened(g, rest, u, v, base), a)
                == Past(Visit(g, Unmarked(Loaded(g, g.needed[u]), inner.marked), inner), base + Discoveries(rest) + [Emit(u)])
             && After(g, Facing(Entered(g, u, v), base, rest), b) == Past(Visit(g, rest, Entered(g, u, v)), base)
    ensures After(g, Facing(v, base, todo), n) == Past(Visit(g, todo, v), base)
  {
    var u, rest := todo[|todo| - 1], todo[..|todo| - 1];
    assert todo == rest + [u];
    n := a + 2 + b;
    EntersAndLeaves(g, rest, u, v, base, a);
    AfterPlus(g, Facing(v, base, rest + [u]), a + 2, b);
    VisitEnters(g, rest, u, v);
  }

  lemma Skipped(g: Graph, todo: seq<nat>, v: Visited, base: seq<Event>, n: nat)
    requires todo != [] && (todo[|todo| - 1] in v.marked || todo[|todo| - 1] >= |g.needed|)
    ensures After(g, Facing(v, base, todo), n + 1) == After(g, Facing(v, base, todo[..|todo| - 1]), n)
    ensures Visit(g, todo, v) == Visit(g, todo[..|todo| - 1], v)
  {
    var u, rest := todo[|todo| - 1], todo[..|todo| - 1];
    assert todo == rest + [u];
    TopOf(base, rest, u);
  }

  lemma TopOf(base: seq<Event>, rest: seq<nat>, u: nat)
    ensures var stack := base + Discoveries(rest + [u]);
            stack[|stack| - 1] == Discover(u) && stack[..|stack| - 1] == base + Discoveries(rest)
  {}

  // One event discovers the object; once what it pushed is done, one more emits it.
  lemma EntersAndLeaves(g: Graph, rest: seq<nat>, u: nat, v: Visited, base: seq<Event>, a: nat)
    requires u !in v.marked && u < |g.needed|
    requires var inner := Visited(v.marked + {u}, v.order);
             After(g, Opened(g, rest, u, v, base), a)
             == Past(Visit(g, Unmarked(Loaded(g, g.needed[u]), inner.marked), inner), base + Discoveries(rest) + [Emit(u)])
    ensures After(g, Facing(v, base, rest + [u]), a + 2) == Facing(Entered(g, u, v), base, rest)
  {
    var w, w1 := Facing(v, base, rest + [u]), Opened(g, rest, u, v, base);
    Opens(g, rest, u, v, base);
    MarkedSkipped(g, Loaded(g, g.needed[u]), v.marked + {u}, Visited(v.marked + {u}, v.order));
    AfterPlus(g, w1, a, 1);
    Emits(g, After(g, w1, a), u, base + Discoveries(rest));
    assert After(g, w, (a + 1) + 1) == After(g, w1, a + 1);
  }

  // The walk when the object has just been discovered.
  function Opened(g: Graph, rest: seq<nat>, u: nat, v: Visited, base: seq<Event>): Walk
    requires u < |g.needed|
  {
    var inner := Visited(v.marked + {u}, v.order);
    Facing(inner, base + Discoveries(rest) + [Emit(u)], Unmarked(Loaded(g, g.needed[u]), inner.marked))
  }

  lemma Opens(g: Graph, rest: seq<nat>, u: nat, v: Visited, base: seq<Event>)
    requires u !in v.marked && u < |g.needed|
    ensures Next(g, Facing(v, base, rest + [u])) == Opened(g, rest, u, v, base)
  {
    TopOf(base, rest, u);
    PushesAre(g, g.needed[u], v.marked + {u});
  }

  lemma Emits(g: Graph, w: Walk, u: nat, base: seq<Event>)
    requires w.stack == base + [Emit(u)]
    ensures After(g, w, 1) == Walk(w.visited, w.order + [u], base)
  {
    assert w.stack[..|base|] == base;
    assert After(g, w, 1) == After(g, Next(g, w), 0);
  }

  // ---------------------------------------------------------------- the result

  lemma {:induction false} EndStays(g: Graph, w: Walk, n: nat, m: nat)
    requires After(g, w, n).stack == [] && After(g, w, m).stack == []
    ensures After(g, w, n) == After(g, w, m)
    decreases n
  {
    if n > 0 && m > 0 && w.stack != [] { EndStays(g, Next(g, w), n - 1, m - 1); }
  }

  // Where the walk with the stack ends, it has emitted the objects in the order of the recursive
  // walk over all of them, the first listed first.
  lemma StackIsRecursion(g: Graph, n: nat)
    requires Valid(g) && After(g, Start(g), n).stack == []
    ensures After(g, Start(g), n).order == Visit(g, All(|g.names|), Visited({}, [])).order
  {
    var m := Simulates(g, All(|g.names|), Visited({}, []), []);
    assert [] + Discoveries(All(|g.names|)) == Start(g).stack;
    EndStays(g, Start(g), n, m);
  }
}
