/** The kernel's doubly linked list: nodes linked both ways, and the sequence of values they stand for. */
module LinkedLists {
  class Node<T> {
    var prev: Node?<T>
    var next: Node?<T>
    var value: T

    constructor (value: T)
      ensures prev == null && next == null && this.value == value
    {
      prev, next := null, null;
      this.value := value;
    }
  }

  ghost predicate Distinct<T>(nodes: seq<Node<T>>) {
    forall i, j :: 0 <= i < j < |nodes| ==> nodes[i] != nodes[j]
  }

  /** Both links of node i point at its neighbours. */
  ghost predicate Linked<T>(nodes: seq<Node<T>>, i: int)
    requires 0 <= i < |nodes|
    reads nodes[i]
  {
    && nodes[i].prev == (if i == 0 then null else nodes[i - 1])
    && nodes[i].next == (if i + 1 == |nodes| then null else nodes[i + 1])
  }

  ghost function Values<T>(nodes: seq<Node<T>>): (vs: seq<T>)
    reads nodes
    ensures |vs| == |nodes| && forall i :: 0 <= i < |vs| ==> vs[i] == nodes[i].value
  {
    seq(|nodes|, i requires 0 <= i < |nodes| reads nodes => nodes[i].value)
  }

  lemma TakeOne<T>(a: seq<T>, b: seq<T>, i: nat)
    requires i < |b|
    ensures (a + b[..i]) + [b[i]] == a + b[..i + 1]
  {}

  class List<T> {
    var head: Node?<T>
    var tail: Node?<T>
    var size: nat
    ghost var nodes: seq<Node<T>>

    ghost predicate Valid()
      reads this, nodes
    {
      && size == |nodes| && Distinct(nodes)
      && head == (if nodes == [] then null else nodes[0])
      && tail == (if nodes == [] then null else nodes[|nodes| - 1])
      && forall i :: 0 <= i < |nodes| ==> Linked(nodes, i)
    }

    ghost function Contents(): seq<T>
      reads this, nodes
    {
      Values(nodes)
    }

    constructor ()
      ensures Valid() && Contents() == [] && nodes == []
    {
      head, tail, size := null, null, 0;
      nodes := [];
    }

    method Front() returns (v: T)
      requires Valid() && size > 0
      ensures v == Contents()[0]
    {
      v := head.value;
    }

    method Back() returns (v: T)
      requires Valid() && size > 0
      ensures v == Contents()[size - 1]
    {
      v := tail.value;
    }

    method EmplaceBack(value: T)
      requires Valid()
      modifies this, tail
      ensures Valid() && Contents() == old(Contents()) + [value]
      ensures |nodes| == old(|nodes|) + 1 && nodes[..old(|nodes|)] == old(nodes) && fresh(nodes[old(|nodes|)])
    {
      var n := new Node(value);
      if size == 0 {
        head, tail := n, n;
      } else {
        tail.next := n;
        n.prev := tail;
        tail := n;
      }
      nodes := nodes + [n];
      size := size + 1;
      forall i | 0 <= i < |nodes| ensures Linked(nodes, i) {
        assert i < |old(nodes)| ==> old(Linked(nodes, i));
      }
    }

    method EmplaceFront(value: T)
      requires Valid()
      modifies this, head
      ensures Valid() && Contents() == [value] + old(Contents())
      ensures |nodes| == old(|nodes|) + 1 && nodes[1..] == old(nodes) && fresh(nodes[0])
    {
      var n := new Node(value);
      if size == 0 {
        head, tail := n, n;
      } else {
        head.prev := n;
        n.next := head;
        head := n;
      }
      nodes := [n] + nodes;
      size := size + 1;
      forall i | 0 <= i < |nodes| ensures Linked(nodes, i) {
        assert i > 0 ==> old(Linked(nodes, i - 1));
      }
    }

    method PopBack()
      requires Valid() && size > 0
      modifies this, nodes
      ensures Valid() && nodes == old(nodes[..size - 1]) && Contents() == old(Contents()[..size - 1])
    {
      if size == 1 {
        head, tail := null, null;
      } else {
        assert Linked(nodes, size - 1) && Linked(nodes, size - 2);
        tail := tail.prev;
        tail.next := null;
      }
      nodes := nodes[..size - 1];
      size := size - 1;
      forall i | 0 <= i < |nodes| ensures Linked(nodes, i) {
        assert old(Linked(nodes, i));
      }
    }

    method PopFront()
      requires Valid() && size > 0
      modifies this, nodes
      ensures Valid() && nodes == old(nodes[1..]) && Contents() == old(Contents()[1..])
    {
      if size == 1 {
        head, tail := null, null;
      } else {
        assert Linked(nodes, 0) && Linked(nodes, 1);
        head := head.next;
        head.prev := null;
      }
      nodes := nodes[1..];
      size := size - 1;
      forall i | 0 <= i < |nodes| ensures Linked(nodes, i) {
        assert old(Linked(nodes, i + 1));
      }
    }

    /** From begin to end: every value once, in order. */
    method Forward() returns (vs: seq<T>)
      requires Valid()
      ensures vs == Contents()
    {
      vs := [];
      var it := head;
      ghost var i := 0;
      while it != null
        invariant 0 <= i <= |nodes| && it == (if i == |nodes| then null else nodes[i])
        invariant vs == Contents()[..i]
        decreases |nodes| - i
      {
        assert Linked(nodes, i);
        vs := vs + [it.value];
        it := it.next;
        i := i + 1;
      }
    }

    /** From the tail iterator back: every value once, in reverse. */
    method Backward() returns (vs: seq<T>)
      requires Valid()
      ensures |vs| == size && forall k :: 0 <= k < size ==> vs[k] == Contents()[size - 1 - k]
    {
      vs := [];
      var it := tail;
      ghost var i := |nodes|;
      while it != null
        invariant 0 <= i <= |nodes| && it == (if i == 0 then null else nodes[i - 1]) && |vs| == |nodes| - i
        invariant forall k :: 0 <= k < |vs| ==> vs[k] == nodes[|nodes| - 1 - k].value
        decreases i
      {
        assert Linked(nodes, i - 1);
        vs := vs + [it.value];
        it := it.prev;
        i := i - 1;
      }
    }

    /** Takes over another list's nodes; the other is left empty. */
    method MoveFrom(other: List<T>)
      requires Valid() && other.Valid() && other != this
      modifies this, other
      ensures Valid() && nodes == old(other.nodes) && Contents() == old(other.Contents())
      ensures other.Valid() && other.Contents() == []
    {
      head, tail, size, nodes := other.head, other.tail, other.size, other.nodes;
      other.head, other.tail, other.size, other.nodes := null, null, 0, [];
    }

    ghost predicate Apart(other: List<T>)
      reads this, other
    {
      forall j :: 0 <= j < |other.nodes| ==> other.nodes[j] !in nodes
    }

    /** In the middle of a copy: the first i values of the other list have been appended to what was here. */
    ghost predicate Copying(other: List<T>, i: nat, was: seq<T>)
      reads this, nodes, other, other.nodes
    {
      && Valid() && other.Valid() && other != this && Apart(other)
      && i <= |other.nodes| && Contents() == was + other.Contents()[..i]
    }

    method CopyOne(other: List<T>, ghost i: nat, it: Node<T>, ghost was: seq<T>) returns (next: Node?<T>)
      requires Copying(other, i, was) && i < |other.nodes| && it == other.nodes[i]
      modifies this, tail
      ensures Copying(other, i + 1, was) && other.nodes == old(other.nodes) && other.Contents() == old(other.Contents())
      ensures next == if i + 1 == |other.nodes| then null else other.nodes[i + 1]
      ensures tail != null && fresh(tail)
    {
      assert Linked(other.nodes, i);
      TakeOne(was, other.Contents(), i);
      EmplaceBack(it.value);
      next := it.next;
    }

    /** The values of another list are appended in nodes of this list's own. */
    method CopyAll(other: List<T>)
      requires Valid() && other.Valid() && other != this && Apart(other)
      modifies this, tail
      ensures Valid() && Contents() == old(Contents()) + other.Contents()
      ensures other.Valid() && other.Contents() == old(other.Contents())
      ensures Apart(other)
    {
      var it := other.head;
      ghost var i: nat := 0;
      ghost var was := Contents();
      while it != null
        invariant Copying(other, i, was) && other.nodes == old(other.nodes) && other.Contents() == old(other.Contents())
        invariant it == if i == |other.nodes| then null else other.nodes[i]
        invariant tail == old(tail) || (tail != null && fresh(tail))
        decreases |other.nodes| - i
      {
        it := CopyOne(other, i, it, was);
        i := i + 1;
      }
    }

    constructor Copy(other: List<T>)
      requires other.Valid()
      ensures Valid() && Contents() == other.Contents() && Apart(other)
    {
      head, tail, size := null, null, 0;
      nodes := [];
      new;
      CopyAll(other);
    }

    method Shrink(count: nat)
      requires Valid()
      modifies this, nodes
      ensures Valid() && size == (if old(size) < count then old(size) else count)
      ensures nodes == old(nodes)[..size] && Contents() == old(Contents())[..size]
    {
      ghost var was := Contents();
      while size > count
        invariant Valid() && (size >= count || size == |was|) && size <= |was|
        invariant nodes == old(nodes)[..size] && Contents() == was[..size]
        decreases size
      {
        PopBack();
      }
    }

    method Extend(count: nat, value: T)
      requires Valid()
      modifies this, tail
      ensures Valid() && size == (if old(size) < count then count else old(size))
      ensures Contents() == old(Contents()) + seq(size - old(size), _ => value)
    {
      ghost var was := Contents();
      while size < count
        invariant Valid() && |was| <= size && (size <= count || size == |was|)
        invariant Contents() == was + seq(size - |was|, _ => value)
        invariant tail == old(tail) || (tail != null && fresh(tail))
        decreases count - size
      {
        EmplaceBack(value);
      }
    }

    method Resize(count: nat, value: T)
      requires Valid()
      modifies this, nodes
      ensures Valid() && size == count
      ensures forall k :: 0 <= k < count ==> Contents()[k] == if k < old(size) then old(Contents())[k] else value
    {
      Shrink(count);
      Extend(count, value);
    }
  }
}
