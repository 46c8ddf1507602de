/** The doubly-linked list of src/containers/list.ts: a heap of nodes, two
    pointer directions and a size counter. */
module Lists {
  import opened Wrappers

  class Node<T> {
    var element: T
    var next: Node?<T>
    var previous: Node?<T>

    constructor (element: T, next: Node?<T>, previous: Node?<T>)
      ensures this.element == element && this.next == next && this.previous == previous
    {
      this.element, this.next, this.previous := element, next, previous;
    }
  }

  class List<T> {
    var head: Node?<T>
    var tail: Node?<T>
    var size: nat
    ghost var nodes: seq<Node<T>>  // the nodes, front to back
    ghost var contents: seq<T>     // their elements
    ghost var Repr: set<object>

    ghost predicate Valid()
      reads this, Repr
      ensures Valid() ==> this in Repr
    {
      && this in Repr
      && (forall n :: n in nodes ==> n in Repr)
      && size == |nodes| == |contents|
      && (forall i, j :: 0 <= i < j < |nodes| ==> nodes[i] != nodes[j])
      && (forall i :: 0 <= i < |nodes| ==> nodes[i].element == contents[i])
      && head == NodeAt(nodes, 0)
      && tail == NodeAt(nodes, |nodes| - 1)
      && (forall i {:trigger nodes[i].next} :: 0 <= i < |nodes| ==> nodes[i].next == NodeAt(nodes, i + 1))
      && (forall i {:trigger nodes[i].previous} :: 0 <= i < |nodes| ==> nodes[i].previous == NodeAt(nodes, i - 1))
    }

    constructor ()
      ensures Valid() && fresh(Repr) && contents == []
    {
      head, tail, size := null, null, 0;
      nodes, contents, Repr := [], [], {this};
    }

    method Length() returns (n: nat)
      requires Valid()
      ensures n == |contents|
    {
      n := size;
    }

    static method From(init: seq<T>) returns (list: List<T>)
      ensures list.Valid() && fresh(list.Repr)
      ensures list.contents == init
    {
      list := new List<T>();
      for i := 0 to |init|
        invariant list.Valid() && fresh(list.Repr)
        invariant list.contents == init[..i]
      {
        var _ := list.PushOne(init[i]);
      }
    }

    method Push(elements: seq<T>) returns (n: nat)
      requires Valid()
      modifies Repr
      ensures Valid() && fresh(Repr - old(Repr))
      ensures contents == old(contents) + elements
      ensures n == |contents|
    {
      for i := 0 to |elements|
        invariant Valid() && fresh(Repr - old(Repr))
        invariant contents == old(contents) + elements[..i]
      {
        var _ := PushOne(elements[i]);
      }
      n := size;
    }

    method Pop() returns (popped: Option<T>)
      requires Valid()
      modifies Repr
      ensures Valid() && Repr == old(Repr)
      ensures old(contents) == [] ==> popped == None && contents == []
      ensures old(contents) != [] ==>
        popped == Some(Last(old(contents))) && contents == old(contents)[..|old(contents)| - 1]
    {
      if tail == null {
        return None;
      }
      size := size - 1;
      popped := Some(tail.element);
      tail := tail.previous;
      nodes, contents := nodes[..|nodes| - 1], contents[..|contents| - 1];
      if tail != null {
        tail.next := null;
      } else {
        head := null;
      }
    }

    method Shift() returns (shifted: Option<T>)
      requires Valid()
      modifies Repr
      ensures Valid() && Repr == old(Repr)
      ensures old(contents) == [] ==> shifted == None && contents == []
      ensures old(contents) != [] ==>
        shifted == Some(old(contents)[0]) && contents == old(contents)[1..]
    {
      if head == null {
        return None;
      }
      size := size - 1;
      shifted := Some(head.element);
      head := head.next;
      nodes, contents := nodes[1..], contents[1..];
      if head != null {
        head.previous := null;
      } else {
        tail := null;
      }
    }

    method Unshift(elements: seq<T>) returns (n: nat)
      requires Valid()
      modifies Repr
      ensures Valid() && fresh(Repr - old(Repr))
      ensures contents == elements + old(contents)
      ensures n == |contents|
    {
      ghost var before := contents;
      var i := |elements|;
      while i > 0
        invariant 0 <= i <= |elements|
        invariant Valid() && fresh(Repr - old(Repr))
        invariant contents == elements[i..] + before
      {
        i := i - 1;
        var _ := UnshiftOne(elements[i]);
        ConsDrop(elements, i, before);
      }
      n := size;
    }

    /** The generator `[Symbol.iterator]`, run to its end over a list nobody
        changes meanwhile. */
    method Iterate() returns (yielded: seq<T>)
      requires Valid()
      ensures yielded == contents
    {
      var current := head;
      yielded := [];
      while current != null
        invariant |yielded| <= |nodes|
        invariant current == NodeAt(nodes, |yielded|)
        invariant yielded == contents[..|yielded|]
        decreases |nodes| - |yielded|
      {
        var toYield := current.element;
        current := current.next;
        yielded := yielded + [toYield];
      }
    }

    method PushOne(element: T) returns (n: nat)
      requires Valid()
      modifies Repr
      ensures Valid() && fresh(Repr - old(Repr))
      ensures contents == old(contents) + [element]
      ensures n == |contents|
    {
      size := size + 1;
      var toPush := new Node(element, null, tail);
      if tail == null {
        head, tail := toPush, toPush;
      } else {
        tail.next := toPush;
        tail := toPush;
      }
      nodes, contents, Repr := nodes + [toPush], contents + [element], Repr + {toPush};
      n := size;
    }

    method UnshiftOne(element: T) returns (n: nat)
      requires Valid()
      modifies Repr
      ensures Valid() && fresh(Repr - old(Repr))
      ensures contents == [element] + old(contents)
      ensures n == |contents|
    {
      size := size + 1;
      var toUnshift := new Node(element, head, null);
      if head == null {
        head, tail := toUnshift, toUnshift;
      } else {
        head.previous := toUnshift;
        head := toUnshift;
      }
      nodes, contents, Repr := [toUnshift] + nodes, [element] + contents, Repr + {toUnshift};
      n := size;
    }
  }

  ghost function NodeAt<T>(nodes: seq<Node<T>>, i: int): Node?<T> {
    if 0 <= i < |nodes| then nodes[i] else null
  }

  ghost function Last<T>(s: seq<T>): T
    requires s != []
  {
    s[|s| - 1]
  }

  lemma ConsDrop<T>(s: seq<T>, i: nat, rest: seq<T>)
    requires i < |s|
    ensures [s[i]] + (s[i + 1..] + rest) == s[i..] + rest
  {
  }

  /** At most `fuel` nodes reached from `n` by `next`, inside `region`. */
  ghost function NextChain<T>(n: Node?<T>, region: set<Node<T>>, fuel: nat): seq<Node<T>>
    reads region
  {
    if n == null || n !in region || fuel == 0 then []
    else [n] + NextChain(n.next, region, fuel - 1)
  }

  /** The same by `previous`. */
  ghost function PreviousChain<T>(n: Node?<T>, region: set<Node<T>>, fuel: nat): seq<Node<T>>
    reads region
  {
    if n == null || n !in region || fuel == 0 then []
    else [n] + PreviousChain(n.previous, region, fuel - 1)
  }

  ghost function Reverse<T>(s: seq<T>): (r: seq<T>)
    ensures |r| == |s|
    ensures forall i :: 0 <= i < |s| ==> r[i] == s[|s| - 1 - i]
  {
    if s == [] then [] else Reverse(s[1..]) + [s[0]]
  }

  /** However far they are followed, the chain of `next` pointers from the head
      and the chain of `previous` pointers from the tail are the same `size`
      nodes in opposite orders, and both end. */
  lemma ChainsMirror<T>(list: List<T>, fuel: nat)
    requires list.Valid()
    requires list.size <= fuel
    ensures var region := set n | n in list.nodes;
      var forward := NextChain(list.head, region, fuel);
      var backward := PreviousChain(list.tail, region, fuel);
      && |forward| == list.size
      && backward == Reverse(forward)
      && (forall i :: 0 <= i < |forward| ==> forward[i].element == list.contents[i])
  {
    var region := set n | n in list.nodes;
    NextChainIs(list, region, 0, fuel);
    PreviousChainIs(list, region, list.size, fuel);
    assert list.nodes[0..] == list.nodes && list.nodes[..list.size] == list.nodes;
  }

  lemma {:induction false} NextChainIs<T>(list: List<T>, region: set<Node<T>>, i: nat, fuel: nat)
    requires list.Valid() && region == set n | n in list.nodes
    requires i <= list.size <= i + fuel
    ensures NextChain(NodeAt(list.nodes, i), region, fuel) == list.nodes[i..]
    decreases fuel
  {
    if i < list.size {
      NextChainIs(list, region, i + 1, fuel - 1);
    }
  }

  lemma {:induction false} PreviousChainIs<T>(list: List<T>, region: set<Node<T>>, i: nat, fuel: nat)
    requires list.Valid() && region == set n | n in list.nodes
    requires i <= list.size && i <= fuel
    ensures PreviousChain(NodeAt(list.nodes, i - 1), region, fuel) == Reverse(list.nodes[..i])
    decreases fuel
  {
    if i > 0 {
      PreviousChainIs(list, region, i - 1, fuel - 1);
      var rest := list.nodes[..i];
      assert Reverse(rest) == [rest[i - 1]] + Reverse(rest[..i - 1]);
      assert rest[..i - 1] == list.nodes[..i - 1];
    }
  }
}
