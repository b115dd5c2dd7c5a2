/**
 The doubly linked list behind every queue of the kernel: nodes between a head and a tail node, rewired in place.
 `elems` is the sequence of nodes that the links spell.
 */
module ListLinks {
  import opened Common

  class Node {
    var prev: Node?
    var next: Node?

    constructor ()
      ensures prev == null && next == null
    {
      prev, next := null, null;
    }
  }

  /** Neighbours point at each other. */
  ghost predicate Linked(c: seq<Node>)
    reads c
  {
    && (forall i :: 0 <= i < |c| - 1 ==> c[i].next == c[i + 1])
    && (forall i :: 0 < i < |c| ==> c[i].prev == c[i - 1])
  }

  lemma Neighbours(c: seq<Node>, i: nat)
    requires Linked(c) && i + 1 < |c|
    ensures c[i].next == c[i + 1] && c[i + 1].prev == c[i]
  {
  }

  lemma DistinctInsert(c: seq<Node>, k: nat, e: Node)
    requires NoDup(c) && k <= |c| && e !in c
    ensures NoDup(c[..k] + [e] + c[k..])
  {
    var n := c[..k] + [e] + c[k..];
    forall i, j | 0 <= i < j < |n| ensures n[i] != n[j] {
      assert n[i] == if i < k then c[i] else if i == k then e else c[i - 1];
      assert n[j] == if j < k then c[j] else if j == k then e else c[j - 1];
    }
  }

  lemma DistinctRemove(c: seq<Node>, k: nat)
    requires NoDup(c) && k < |c|
    ensures NoDup(c[..k] + c[k + 1..]) && c[k] !in c[..k] + c[k + 1..]
  {
    var n := c[..k] + c[k + 1..];
    assert forall i :: 0 <= i < |n| ==> n[i] == if i < k then c[i] else c[i + 1];
  }

  class List {
    const head: Node
    const tail: Node
    ghost var elems: seq<Node>

    /** All nodes from head to tail. */
    ghost function Chain(): seq<Node>
      reads this
    {
      [head] + elems + [tail]
    }

    ghost predicate Valid()
      reads this, head, tail, elems
    {
      NoDup(Chain()) && Linked(Chain()) && head.prev == null && tail.next == null
    }

    /** list_init. */
    constructor ()
      ensures Valid() && elems == [] && fresh(head) && fresh(tail)
    {
      var h := new Node();
      var t := new Node();
      head, tail, elems := h, t, [];
      new;
      head.next := tail;
      tail.prev := head;
    }

    /** list_insert_before: the node `before` is the one at position k, or the tail. */
    method InsertBefore(before: Node, e: Node, ghost k: nat)
      requires Valid() && k <= |elems| && before == Chain()[k + 1] && e !in Chain()
      modifies this`elems, e, before, before.prev
      ensures elems == old(elems)[..k] + [e] + old(elems)[k..] && Valid()
    {
      ghost var c := Chain();
      Neighbours(c, k);
      DistinctInsert(c, k + 1, e);
      e.prev := before.prev;
      e.next := before;
      before.prev.next := e;
      before.prev := e;
      elems := elems[..k] + [e] + elems[k..];
      ghost var n := c[..k + 1] + [e] + c[k + 1..];
      assert Chain() == n;
      forall i | 0 <= i < |n| - 1 ensures n[i].next == n[i + 1] && n[i + 1].prev == n[i] {
        if i < k { assert n[i] == c[i] && n[i + 1] == c[i + 1]; }
        if i > k + 1 { assert n[i] == c[i - 1] && n[i + 1] == c[i]; }
      }
    }

    method Push(e: Node)
      requires Valid() && e !in Chain()
      modifies this`elems, e, head, head.next
      ensures elems == [e] + old(elems) && Valid()
    {
      Neighbours(Chain(), 0);
      InsertBefore(head.next, e, 0);
      assert elems == [e] + old(elems);
    }

    method Append(e: Node)
      requires Valid() && e !in Chain()
      modifies this`elems, e, tail, tail.prev
      ensures elems == old(elems) + [e] && Valid()
    {
      assert Chain()[|elems| + 1] == tail;
      InsertBefore(tail, e, |elems|);
      assert elems == old(elems) + [e];
    }

    /** list_remove of the node at position k; its own links stay as they were. */
    method Remove(e: Node, ghost k: nat)
      requires Valid() && k < |elems| && e == elems[k]
      modifies this`elems, e.prev, e.next
      ensures elems == old(elems)[..k] + old(elems)[k + 1..] && Valid() && e !in Chain()
    {
      ghost var c := Chain();
      assert c[k + 1] == e;
      Neighbours(c, k);
      Neighbours(c, k + 1);
      DistinctRemove(c, k + 1);
      e.next.prev := e.prev;
      e.prev.next := e.next;
      elems := elems[..k] + elems[k + 1..];
      ghost var n := c[..k + 1] + c[k + 2..];
      assert Chain() == n;
      forall i | 0 <= i < |n| - 1 ensures n[i].next == n[i + 1] && n[i + 1].prev == n[i] {
        if i < k { assert n[i] == c[i] && n[i + 1] == c[i + 1]; }
        if i > k { assert n[i] == c[i + 1] && n[i + 1] == c[i + 2]; }
      }
    }

    method Pop() returns (e: Node)
      requires Valid() && elems != []
      modifies this`elems, head, head.next, if head.next == null then {} else {head.next.next}
      ensures e == old(elems)[0] && elems == old(elems)[1..] && Valid() && e !in Chain()
    {
      Neighbours(Chain(), 0);
      Neighbours(Chain(), 1);
      e := head.next;
      Remove(e, 0);
    }

    method Find(e: Node) returns (found: bool)
      requires Valid()
      ensures found <==> e in elems
    {
      ghost var i := 0;
      Neighbours(Chain(), 0);
      var now := head.next;
      while now != tail
        invariant 0 <= i <= |elems| && now == Chain()[i + 1]
        invariant forall j :: 0 <= j < i ==> elems[j] != e
        decreases |elems| - i
      {
        Neighbours(Chain(), i + 1);
        assert now == elems[i];
        if now == e { return true; }
        now := now.next;
        i := i + 1;
      }
      assert i == |elems| by { assert Chain()[|elems| + 1] == tail; }
      found := false;
    }

    method IsEmpty() returns (b: bool)
      requires Valid()
      ensures b <==> elems == []
    {
      Neighbours(Chain(), 0);
      assert Chain()[|elems| + 1] == tail;
      b := head.next == tail;
    }

    /** list_traversal: the first node that the callback accepts, or null. */
    method Traverse(f: Node -> bool) returns (r: Node?)
      requires Valid()
      ensures r == null ==> forall j :: 0 <= j < |elems| ==> !f(elems[j])
      ensures r != null ==>
        exists i :: 0 <= i < |elems| && elems[i] == r && f(r) && forall j :: 0 <= j < i ==> !f(elems[j])
    {
      ghost var i := 0;
      Neighbours(Chain(), 0);
      var now := head.next;
      while now != tail
        invariant 0 <= i <= |elems| && now == Chain()[i + 1]
        invariant forall j :: 0 <= j < i ==> !f(elems[j])
        decreases |elems| - i
      {
        Neighbours(Chain(), i + 1);
        assert now == elems[i];
        if f(now) { return now; }
        now := now.next;
        i := i + 1;
      }
      assert i == |elems| by { assert Chain()[|elems| + 1] == tail; }
      r := null;
    }
  }
}
