/** The ring of `container/list` under the LRU cache: elements linked both ways around a root
    sentinel. `nodes` is the ghost list of elements from front to back. */
module ContainerList {
  import opened Basics

  /** The cache's `entry` record; its value is replaced in place. */
  class Entry {
    const key: string
    var value: Bytes

    constructor (key: string, value: Bytes)
      ensures this.key == key && this.value == value
    {
      this.key, this.value := key, value;
    }
  }

  class Element {
    var next: Element?
    var prev: Element?
    var value: Entry?

    constructor (value: Entry?)
      ensures this.value == value && next == null && prev == null
    {
      this.value := value;
      next, prev := null, null;
    }
  }

  lemma RemoveAtMembers<T>(s: seq<T>, k: nat)
    requires k < |s| && NoRepeats(s)
    ensures forall x :: x in RemoveAt(s, k) <==> x in s && x != s[k]
  {
    assert s == s[..k] + [s[k]] + s[k + 1..];
  }

  class List {
    const root: Element
    var len: nat
    ghost var nodes: seq<Element>

    ghost function Ring(i: int): Element
      reads this
    {
      if 0 <= i < |nodes| then nodes[i] else root
    }

    ghost predicate Linked(i: int)
      reads this, root, nodes
    {
      Ring(i).next == Ring(i + 1) && Ring(i + 1).prev == Ring(i)
    }

    ghost predicate Valid()
      reads this, root, nodes
    {
      && len == |nodes|
      && root !in nodes
      && NoRepeats(nodes)
      && forall i :: -1 <= i < |nodes| ==> Linked(i)
    }

    constructor ()
      ensures Valid() && nodes == [] && fresh(root)
    {
      root := new Element(null);
      len, nodes := 0, [];
      new;
      root.next, root.prev := root, root;
    }

    method Back() returns (e: Element?)
      requires Valid()
      ensures e == if nodes == [] then null else nodes[|nodes| - 1]
    {
      assert Linked(|nodes| - 1);
      e := if len == 0 then null else root.prev;
    }

    method PushFront(value: Entry) returns (e: Element)
      requires Valid()
      modifies this, root, nodes
      ensures Valid() && fresh(e) && e.value == value
      ensures nodes == [e] + old(nodes)
      ensures forall n :: n in old(nodes) ==> n.value == old(n.value)
    {
      e := new Element(value);
      assert Linked(-1);
      e.prev := root;
      e.next := root.next;
      e.prev.next := e;
      e.next.prev := e;
      len := len + 1;
      nodes := [e] + nodes;
      forall i | -1 <= i < |nodes|
        ensures Linked(i)
      {
        assert 0 < i ==> old(Linked(i - 1));
        assert old(Linked(-1));
      }
    }

    /** Unlink the element at position `k`. The cache never removes an element it does not hold. */
    method Remove(e: Element, ghost k: nat)
      requires Valid() && k < |nodes| && e == nodes[k]
      modifies this, root, nodes
      ensures Valid() && nodes == RemoveAt(old(nodes), k)
      ensures forall n :: n in nodes <==> n in old(nodes) && n != e
      ensures forall n :: n in old(nodes) ==> n.value == old(n.value)
    {
      assert Linked(k - 1) && Linked(k);
      e.prev.next := e.next;
      e.next.prev := e.prev;
      e.next, e.prev := null, null;
      len := len - 1;
      nodes := RemoveAt(nodes, k);
      RemoveAtMembers(old(nodes), k);
      forall i | -1 <= i < |nodes|
        ensures Linked(i)
      {
        assert old(Linked(i)) && old(Linked(i + 1));
      }
    }

    method MoveToFront(e: Element, ghost k: nat)
      requires Valid() && k < |nodes| && e == nodes[k]
      modifies this, root, nodes
      ensures Valid() && nodes == [e] + RemoveAt(old(nodes), k)
      ensures forall n :: n in nodes <==> n in old(nodes)
      ensures forall n :: n in old(nodes) ==> n.value == old(n.value)
    {
      assert Linked(k - 1) && Linked(k) && Linked(-1);
      if root.next == e {
        assert nodes == [e] + RemoveAt(nodes, 0);
        return;
      }
      e.prev.next := e.next;
      e.next.prev := e.prev;
      e.prev := root;
      e.next := root.next;
      e.prev.next := e;
      e.next.prev := e;
      nodes := [e] + RemoveAt(nodes, k);
      RemoveAtMembers(old(nodes), k);
      forall i | -1 <= i < |nodes|
        ensures Linked(i)
      {
        assert old(Linked(i)) && (0 <= i ==> old(Linked(i - 1))) && old(Linked(-1));
      }
    }
  }
}
