/** The intrusive doubly linked list under the allocators: nodes carry their own links and the
    list only its head. Every operation is proved against the sequence of nodes it holds. */
module LinkedList {

  class Node {
    const value: nat
    var prev: Node?
    var next: Node?

    constructor (value: nat)
      ensures this.value == value && prev == null && next == null
    {
      this.value, prev, next := value, null, null;
    }
  }

  ghost predicate Distinct(nodes: seq<Node>) {
    forall i, j :: 0 <= i < j < |nodes| ==> nodes[i] != nodes[j]
  }

  // Neighbours in the sequence point at each other.
  ghost predicate Inner(nodes: seq<Node>)
    reads nodes
  {
    forall i, j :: 0 <= i < j < |nodes| && j == i + 1 ==> nodes[i].next == nodes[j] && nodes[j].prev == nodes[i]
  }

  // And nothing points past the ends.
  ghost predicate Chained(nodes: seq<Node>)
    reads nodes
  {
    Inner(nodes) && (nodes != [] ==> nodes[0].prev == null && nodes[|nodes| - 1].next == null)
  }

  lemma JoinInner(a: seq<Node>, b: seq<Node>)
    requires Inner(a) && Inner(b)
    requires a != [] && b != [] ==> a[|a| - 1].next == b[0] && b[0].prev == a[|a| - 1]
    ensures Inner(a + b)
  {
    var c := a + b;
    forall i, j | 0 <= i < j < |c| && j == i + 1 ensures c[i].next == c[j] && c[j].prev == c[i] {
      if j < |a| {
        assert c[i] == a[i] && c[j] == a[j];
      } else if i >= |a| {
        assert c[i] == b[i - |a|] && c[j] == b[j - |a|];
      }
    }
  }

  lemma JoinChained(a: seq<Node>, b: seq<Node>)
    requires a != [] && Inner(a) && Inner(b) && a[0].prev == null
    requires if b == [] then a[|a| - 1].next == null
             else a[|a| - 1].next == b[0] && b[0].prev == a[|a| - 1] && b[|b| - 1].next == null
    ensures Chained(a + b) && (a + b)[0] == a[0]
  {
    JoinInner(a, b);
  }

  lemma InsertChained(a: seq<Node>, node: Node, b: seq<Node>)
    requires a != [] && Inner(a) && Inner(b) && a[0].prev == null && a[|a| - 1].next == node && node.prev == a[|a| - 1]
    requires if b == [] then node.next == null else node.next == b[0] && b[0].prev == node && b[|b| - 1].next == null
    ensures Chained(a + [node] + b) && (a + [node] + b)[0] == a[0]
  {
    JoinInner(a, [node]);
    JoinChained(a + [node], b);
  }

  // A chain cut after its k-th node.
  lemma SplitAfter(nodes: seq<Node>, k: nat) returns (front: seq<Node>, rest: seq<Node>)
    requires k < |nodes| && Distinct(nodes) && Chained(nodes)
    ensures front == nodes[..k + 1] && rest == nodes[k + 1..] && front + rest == nodes && Inner(front) && Inner(rest)
    ensures front[|front| - 1] == nodes[k] && front[0].prev == null
    ensures if rest == [] then nodes[k].next == null else nodes[k].next == rest[0] && rest[|rest| - 1].next == null
    ensures forall i :: 0 <= i < |front| - 1 ==> front[i] != nodes[k]
    ensures forall i :: 1 <= i < |rest| ==> rest[i] != rest[0]
    ensures forall i, j :: 0 <= i < |front| && 0 <= j < |rest| ==> front[i] != rest[j]
  {
    front, rest := nodes[..k + 1], nodes[k + 1..];
  }

  lemma DistinctInsert(a: seq<Node>, node: Node, b: seq<Node>)
    requires Distinct(a + b) && node !in a && node !in b
    ensures Distinct(a + [node] + b)
  {
    forall i | 0 <= i < |a| ensures (a + b)[i] == a[i] {}
    forall i | 0 <= i < |b| ensures (a + b)[|a| + i] == b[i] {}
  }

  lemma DistinctJoin(a: seq<Node>, b: seq<Node>)
    requires Distinct(a) && Distinct(b) && forall n :: n in a ==> n !in b
    ensures Distinct(a + b)
  {
    forall i, j | 0 <= i < j < |a + b| ensures (a + b)[i] != (a + b)[j] {
      if i < |a| <= j { assert a[i] in a && b[j - |a|] in b; }
    }
  }

  class List {
    var head: Node?
    ghost var nodes: seq<Node>

    ghost predicate Valid()
      reads this, nodes
    {
      Distinct(nodes) && Chained(nodes) && head == if nodes == [] then null else nodes[0]
    }

    constructor ()
      ensures Valid() && nodes == []
    {
      head, nodes := null, [];
    }

    method Push(node: Node)
      requires Valid() && node !in nodes
      modifies this, node, nodes
      ensures Valid() && nodes == [node] + old(nodes)
    {
      node.prev := null;
      node.next := head;
      if head != null {
        head.prev := node;
      }
      head := node;
      nodes := [node] + nodes;
    }

    method InsertAfter(anchor: Node, node: Node, ghost k: nat)
      requires Valid() && node !in nodes && k < |nodes| && nodes[k] == anchor
      modifies node, nodes, this`nodes
      ensures Valid() && nodes == old(nodes)[..k + 1] + [node] + old(nodes)[k + 1..]
    {
      ghost var front, rest := SplitAfter(nodes, k);
      DistinctInsert(front, node, rest);
      var oldNext := anchor.next;
      node.prev := anchor;
      node.next := oldNext;
      anchor.next := node;
      assert Inner(front) && Inner(rest);
      if oldNext != null {
        oldNext.prev := node;
        assert Inner(front) && Inner(rest);
      }
      InsertChained(front, node, rest);
      nodes := front + [node] + rest;
    }

    method Remove(node: Node, ghost k: nat)
      requires Valid() && k < |nodes| && nodes[k] == node
      modifies this, nodes
      ensures Valid() && nodes == old(nodes)[..k] + old(nodes)[k + 1..]
      ensures node.prev == null && node.next == null
    {
      var prev, next := node.prev, node.next;
      assert k > 0 ==> prev == nodes[k - 1];
      assert k + 1 < |nodes| ==> next == nodes[k + 1];
      if prev != null {
        prev.next := next;
      } else {
        head := next;
      }
      if next != null {
        next.prev := prev;
      }
      node.prev, node.next := null, null;
      nodes := nodes[..k] + nodes[k + 1..];
    }

    method Pop() returns (node: Node?)
      requires Valid()
      modifies this, nodes
      ensures Valid()
      ensures if old(nodes) == [] then node == null && nodes == []
              else node == old(nodes)[0] && nodes == old(nodes)[1..] && node.prev == null && node.next == null
    {
      node := head;
      if node != null {
        Remove(node, 0);
      }
    }

    // Walks to the tail of the other list and splices it in front of this one.
    method PrependAdopt(other: List)
      requires Valid() && other.Valid() && other != this
      requires forall n :: n in nodes ==> n !in other.nodes
      modifies this, other, nodes, other.nodes
      ensures Valid() && other.Valid()
      ensures nodes == old(other.nodes) + old(nodes) && other.nodes == []
    {
      var otherHead := other.head;
      other.head := null;
      if otherHead == null {
        return;
      }
      ghost var theirs := other.nodes;
      other.nodes := [];
      Prepend(otherHead, theirs);
    }

    // Puts a chain that is in no list in front of this one.
    method Prepend(first: Node, ghost theirs: seq<Node>)
      requires Valid() && Distinct(theirs) && Chained(theirs) && theirs != [] && theirs[0] == first
      requires forall n :: n in theirs ==> n !in nodes
      modifies this, nodes, theirs
      ensures Valid() && nodes == theirs + old(nodes)
    {
      ghost var mine := nodes;
      var tail := Tail(first, theirs);
      DistinctJoin(theirs, mine);
      tail.next := head;
      if head != null {
        head.prev := tail;
      }
      head := first;
      nodes := theirs + mine;
      assert Inner(theirs) by { assert tail == theirs[|theirs| - 1]; }
      assert theirs[0] in theirs && tail in theirs && (mine != [] ==> mine[0] in mine && mine[|mine| - 1] in mine);
      JoinChained(theirs, mine);
    }

    static method Tail(first: Node, ghost chain: seq<Node>) returns (tail: Node)
      requires Chained(chain) && chain != [] && chain[0] == first
      ensures tail == chain[|chain| - 1]
    {
      tail := first;
      ghost var k := 0;
      while tail.next != null
        invariant k < |chain| && tail == chain[k]
        invariant k + 1 < |chain| ==> tail.next == chain[k + 1]
        decreases |chain| - k
      {
        tail := tail.next;
        k := k + 1;
      }
    }

    // The walk behind iteration and the debug-only membership test.
    method Contains(node: Node) returns (found: bool)
      requires Valid()
      ensures found <==> node in nodes
    {
      var current := head;
      ghost var k := 0;
      while current != null
        invariant k <= |nodes| && current == if k < |nodes| then nodes[k] else null
        invariant node !in nodes[..k]
        decreases |nodes| - k
      {
        if current == node {
          return true;
        }
        assert k + 1 < |nodes| ==> nodes[k].next == nodes[k + 1];
        assert nodes[..k + 1] == nodes[..k] + [nodes[k]];
        current := current.next;
        k := k + 1;
      }
      assert nodes[..k] == nodes;
      return false;
    }
  }
}
