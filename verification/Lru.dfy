/** The byte-bounded LRU cache: a map of pointers into a doubly linked list, proved to behave as
    the recency list of module `Recency`. */
module Lru {
  import opened Basics
  import opened ContainerList
  import R = Recency

  /** The guard of the eviction loop. */
  predicate OverBound(usedBytes: int, maxBytes: int) {
    maxBytes != 0 && usedBytes > maxBytes
  }

  /** The entries left after `n` evictions; evicting from an empty list changes nothing. */
  function AfterEvictions(es: seq<R.Pair>, n: nat): seq<R.Pair> {
    if n < |es| then es[..|es| - n] else []
  }

  /** The loop on content `es` stops after some number of evictions. */
  ghost predicate LoopStops(es: seq<R.Pair>, maxBytes: int) {
    exists n: nat :: !OverBound(R.Total(AfterEvictions(es, n)), maxBytes)
  }

  /** The eviction loop stops on every content exactly when the bound is not negative. */
  lemma LoopStopsIff(maxBytes: int)
    ensures (forall es :: LoopStops(es, maxBytes)) <==> maxBytes >= 0
  {
    forall es | maxBytes >= 0
      ensures LoopStops(es, maxBytes)
    {
      assert !OverBound(R.Total(AfterEvictions(es, |es|)), maxBytes);
    }
    if maxBytes < 0 {
      assert !LoopStops([], maxBytes);
    }
  }

  /** What the entry behind each element holds. */
  type Data = map<Element, R.Pair>

  ghost function Listing(nodes: seq<Element>, data: Data): (es: seq<R.Pair>)
    ensures |es| == |nodes|
  {
    seq(|nodes|, i requires 0 <= i < |nodes| => if nodes[i] in data then data[nodes[i]] else R.Pair("", []))
  }

  /** The map finds exactly the listed elements: keys and elements are in bijection. */
  ghost predicate Indexes(cache: map<string, Element>, nodes: seq<Element>, data: Data) {
    && (forall k :: k in cache ==> cache[k] in nodes && cache[k] in data && data[cache[k]].key == k)
    && (forall n :: n in nodes ==> n in data && data[n].key in cache && cache[data[n].key] == n)
  }

  lemma {:induction false} ListingDistinct(cache: map<string, Element>, nodes: seq<Element>, data: Data)
    requires Indexes(cache, nodes, data) && NoRepeats(nodes)
    ensures R.DistinctKeys(Listing(nodes, data))
  {
    forall i, j | 0 <= i < j < |nodes|
      ensures Listing(nodes, data)[i].key != Listing(nodes, data)[j].key
    {
      assert nodes[i] in nodes && nodes[j] in nodes;
    }
  }

  lemma {:induction false} ListingLookup(cache: map<string, Element>, nodes: seq<Element>, data: Data, key: string)
    requires Indexes(cache, nodes, data) && NoRepeats(nodes)
    ensures (key in cache) == R.Has(Listing(nodes, data), key)
    ensures key in cache ==> nodes[R.IndexOf(Listing(nodes, data), key)] == cache[key]
  {
    var es := Listing(nodes, data);
    ListingDistinct(cache, nodes, data);
    if key in cache {
      var i :| 0 <= i < |nodes| && nodes[i] == cache[key];
      R.HasMember(es, i);
    }
    var j := R.IndexOf(es, key);
    if j < |es| {
      assert nodes[j] in nodes;
    }
  }

  lemma {:induction false} ListingRemoveAt(nodes: seq<Element>, data: Data, i: nat)
    requires i < |nodes|
    ensures Listing(RemoveAt(nodes, i), data) == RemoveAt(Listing(nodes, data), i)
  {
  }

  lemma {:induction false} ListingCons(n: Element, nodes: seq<Element>, data: Data)
    requires n in data
    ensures Listing([n] + nodes, data) == [data[n]] + Listing(nodes, data)
  {
  }

  /** Pushing a new element for an uncached key is `Front` on the listing. */
  lemma {:induction false} ListingPush(cache: map<string, Element>, nodes: seq<Element>, data: Data,
                                           n: Element, e: R.Pair)
    requires Indexes(cache, nodes, data) && NoRepeats(nodes) && e.key !in cache && n !in nodes
    ensures Indexes(cache[e.key := n], [n] + nodes, data[n := e])
    ensures Listing([n] + nodes, data[n := e]) == R.Front(Listing(nodes, data), e.key, e.value)
    ensures R.Total(Listing([n] + nodes, data[n := e])) == R.Total(Listing(nodes, data)) + R.Size(e)
  {
    ListingLookup(cache, nodes, data, e.key);
    ListingCons(n, nodes, data[n := e]);
    assert Listing(nodes, data[n := e]) == Listing(nodes, data);
  }

  /** Moving the element of `key` to the front of the nodes is `Get` on the listing. */
  lemma {:induction false} ListingPromote(cache: map<string, Element>, nodes: seq<Element>, data: Data, key: string)
    returns (i: nat)
    requires Indexes(cache, nodes, data) && NoRepeats(nodes) && key in cache
    ensures i < |nodes| && nodes[i] == cache[key]
    ensures Listing([nodes[i]] + RemoveAt(nodes, i), data) == R.Get(Listing(nodes, data), key)
    ensures R.Total(Listing([nodes[i]] + RemoveAt(nodes, i), data)) == R.Total(Listing(nodes, data))
  {
    var es := Listing(nodes, data);
    ListingLookup(cache, nodes, data, key);
    i := R.IndexOf(es, key);
    ListingRemoveAt(nodes, data, i);
    ListingCons(nodes[i], RemoveAt(nodes, i), data);
    R.TotalRemoveAt(es, i);
  }

  lemma {:induction false} ListingHead(nodes: seq<Element>, data: Data, v: Bytes)
    requires NoRepeats(nodes) && nodes != [] && nodes[0] in data
    ensures var es := Listing(nodes, data);
            var es' := Listing(nodes, data[nodes[0] := R.Pair(es[0].key, v)]);
            && es' == [R.Pair(es[0].key, v)] + es[1..]
            && R.Total(es') == R.Total(es) - |es[0].value| + |v|
  {
  }

  lemma {:induction false} ListingDrop(cache: map<string, Element>, nodes: seq<Element>, data: Data)
    requires Indexes(cache, nodes, data) && NoRepeats(nodes) && nodes != []
    ensures var last := |nodes| - 1;
            var es := Listing(nodes, data);
            && nodes[last] in data && es[last] == data[nodes[last]]
            && Indexes(cache - {es[last].key}, RemoveAt(nodes, last), data)
            && Listing(RemoveAt(nodes, last), data) == RemoveAt(es, last)
            && R.Total(Listing(RemoveAt(nodes, last), data)) == R.Total(es) - R.Size(es[last])
  {
    var last := |nodes| - 1;
    var es := Listing(nodes, data);
    RemoveAtMembers(nodes, last);
    ListingRemoveAt(nodes, data, last);
    R.TotalRemoveAt(es, last);
    assert nodes[last] in nodes;
  }

  /** The eviction loop on the way from `all` to `es`. */
  ghost predicate Evicting(all: seq<R.Pair>, es: seq<R.Pair>, before: seq<R.Pair>, log: seq<R.Pair>, max: nat) {
    && es <= all
    && (es != all ==> !R.Fits(all[..|es| + 1], max))
    && log == before + Reversed(all[|es|..])
  }

  lemma EvictOne(all: seq<R.Pair>, es: seq<R.Pair>, before: seq<R.Pair>, log: seq<R.Pair>, max: nat)
    requires Evicting(all, es, before, log, max) && es != [] && !R.Fits(es, max)
    ensures Evicting(all, es[..|es| - 1], before, log + [es[|es| - 1]], max)
  {
    var n := |es| - 1;
    assert all[..n + 1] == es;
    assert all[n..] == [es[n]] + all[n + 1..];
    ReversedCons(es[n], all[n + 1..]);
  }

  lemma EvictionDone(all: seq<R.Pair>, es: seq<R.Pair>, before: seq<R.Pair>, log: seq<R.Pair>, max: nat)
    requires Evicting(all, es, before, log, max) && R.Fits(es, max)
    ensures es == R.Trim(all, max)
  {
    R.LongestFittingUnique(all, es, R.Trim(all, max), max);
  }

  class Cache {
    var usedBytes: int
    const maxBytes: int
    var cache: map<string, Element>
    const linkedList: List
    ghost var data: Data
    /** Every entry handed to `onEvicted`, in order. */
    ghost var evicted: seq<R.Pair>
    ghost var Repr: set<object>

    /** The entries, most recently used first. */
    ghost function Contents(): seq<R.Pair>
      reads this, linkedList
    {
      Listing(linkedList.nodes, data)
    }

    ghost predicate Stores(n: Element)
      reads this, n, n.value
    {
      && n in Repr && n.value != null && n.value in Repr
      && n in data && n.value.key == data[n].key && n.value.value == data[n].value
    }

    ghost predicate Valid()
      reads this, Repr
    {
      && {this, linkedList, linkedList.root} <= Repr
      && (forall n :: n in linkedList.nodes ==> n in Repr && n.value in Repr && Stores(n))
      && linkedList.Valid()
      && Indexes(cache, linkedList.nodes, data)
      && usedBytes == R.Total(Contents())
    }

    constructor (maxBytes: int)
      ensures Valid() && fresh(Repr)
      ensures Contents() == [] && evicted == [] && this.maxBytes == maxBytes
    {
      this.maxBytes := maxBytes;
      linkedList := new List();
      usedBytes, cache, data, evicted := 0, map[], map[], [];
      new;
      Repr := {this, linkedList, linkedList.root};
    }

    method Get(key: string) returns (value: Option<Bytes>)
      requires Valid()
      modifies Repr
      ensures Valid() && Repr == old(Repr) && evicted == old(evicted)
      ensures Contents() == R.Get(old(Contents()), key)
      ensures value == if R.Has(old(Contents()), key)
                       then Some(old(Contents())[R.IndexOf(old(Contents()), key)].value) else None
    {
      ListingLookup(cache, linkedList.nodes, data, key);
      if key in cache {
        var ele := cache[key];
        assert Stores(ele);
        Promote(key, ele);
        var kv := ele.value;
        return Some(kv.value);
      }
      return None;
    }

    /** `MoveToFront` on the element of `key`. */
    method Promote(key: string, ele: Element)
      requires Valid() && key in cache && ele == cache[key]
      modifies linkedList, linkedList.root, linkedList.nodes
      ensures Valid() && linkedList.nodes != [] && linkedList.nodes[0] == ele && ele.value == old(ele.value)
      ensures Contents() == R.Get(old(Contents()), key)
    {
      ghost var i := ListingPromote(cache, linkedList.nodes, data, key);
      linkedList.MoveToFront(ele, i);
    }

    method RemoveOldest()
      requires Valid()
      modifies Repr
      ensures Valid() && Repr == old(Repr)
      ensures var es := old(Contents());
              if es == [] then Contents() == es && evicted == old(evicted)
              else Contents() == es[..|es| - 1] && evicted == old(evicted) + [es[|es| - 1]]
    {
      var ele := linkedList.Back();
      if ele != null {
        Unlink(ele);
        Forget(ele);
      }
    }

    /** The list operation of `RemoveOldest`. */
    method Unlink(ele: Element)
      requires Valid() && linkedList.nodes != [] && ele == linkedList.nodes[|linkedList.nodes| - 1]
      modifies linkedList, linkedList.root, linkedList.nodes
      ensures linkedList.Valid() && Stores(ele)
      ensures forall n :: n in linkedList.nodes ==> n in Repr && n.value in Repr && Stores(n)
      ensures Indexes(cache - {data[ele].key}, linkedList.nodes, data)
      ensures usedBytes == R.Total(Contents()) + R.Size(data[ele])
      ensures var es := old(Contents()); Contents() == RemoveAt(es, |es| - 1) && data[ele] == es[|es| - 1]
    {
      ListingDrop(cache, linkedList.nodes, data);
      linkedList.Remove(ele, |linkedList.nodes| - 1);
      forall n | n in old(linkedList.nodes)
        ensures Stores(n)
      {
        assert old(Stores(n));
      }
    }

    /** What `RemoveOldest` does after unlinking `ele`. */
    method Forget(ele: Element)
      requires {this, linkedList, linkedList.root} <= Repr && linkedList.Valid() && Stores(ele)
      requires forall n :: n in linkedList.nodes ==> n in Repr && n.value in Repr && Stores(n)
      requires Indexes(cache - {data[ele].key}, linkedList.nodes, data)
      requires usedBytes == R.Total(Contents()) + R.Size(data[ele])
      modifies `usedBytes, `cache, `evicted
      ensures Valid()
      ensures evicted == old(evicted) + [data[ele]]
    {
      var kv := ele.value;
      cache := cache - {kv.key};
      usedBytes := usedBytes - (|kv.key| + |kv.value|);
      evicted := evicted + [R.Pair(kv.key, kv.value)];
    }

    /** The eviction loop needs `maxBytes >= 0`; `LoopStopsIff` shows that nothing less will do. */
    method Add(key: string, value: Bytes)
      requires Valid() && maxBytes >= 0
      modifies Repr
      ensures Valid() && fresh(Repr - old(Repr))
      ensures Contents() == R.Add(old(Contents()), key, value, maxBytes)
      ensures R.LongestFitting([R.Pair(key, value)] + R.Without(old(Contents()), key), Contents(), maxBytes)
      ensures evicted == old(evicted) + Reversed(R.Evicted(old(Contents()), key, value, maxBytes))
    {
      ListingDistinct(cache, linkedList.nodes, data);
      R.AddIs(Contents(), key, value, maxBytes);
      if key !in cache {
        Insert(key, value);
      } else {
        Update(key, value);
      }
      Shrink();
    }

    /** The branch of `Add` for a key that is not cached. */
    method Insert(key: string, value: Bytes)
      requires Valid() && key !in cache
      modifies Repr
      ensures Valid() && fresh(Repr - old(Repr)) && evicted == old(evicted)
      ensures Contents() == R.Front(old(Contents()), key, value)
    {
      var entry := new Entry(key, value);
      var ele := Link(entry);
      Record(ele);
    }

    /** What `Insert` does after linking `ele`. */
    method Record(ele: Element)
      requires {this, linkedList, linkedList.root} <= Repr && linkedList.Valid() && Stores(ele)
      requires forall n :: n in linkedList.nodes ==> n in Repr && n.value in Repr && Stores(n)
      requires Indexes(cache[data[ele].key := ele], linkedList.nodes, data)
      requires R.Total(Contents()) == usedBytes + R.Size(data[ele])
      modifies `usedBytes, `cache
      ensures Valid()
    {
      usedBytes := usedBytes + |ele.value.key| + |ele.value.value|;
      cache := cache[ele.value.key := ele];
    }

    /** The list operation of `Insert`. */
    method Link(entry: Entry) returns (ele: Element)
      requires Valid() && entry.key !in cache
      modifies linkedList, linkedList.root, linkedList.nodes, `data, `Repr
      ensures fresh(ele) && Repr == old(Repr) + {ele, entry} && linkedList.Valid()
      ensures forall n :: n in linkedList.nodes ==> n in Repr && n.value in Repr && Stores(n)
      ensures Indexes(cache[entry.key := ele], linkedList.nodes, data)
      ensures Stores(ele) && data[ele] == R.Pair(entry.key, entry.value)
      ensures R.Total(Contents()) == usedBytes + R.Size(data[ele])
      ensures Contents() == R.Front(old(Contents()), entry.key, entry.value)
    {
      ele := linkedList.PushFront(entry);
      Enlist(ele, old(linkedList.nodes));
    }

    /** The bookkeeping of `Link`. */
    ghost method Enlist(ele: Element, nodes: seq<Element>)
      requires linkedList.nodes == [ele] + nodes && ele !in nodes && NoRepeats(nodes) && ele.value != null
      requires ele.value.key !in cache && Indexes(cache, nodes, data)
      requires forall n :: n in nodes ==> n in Repr && n.value in Repr && Stores(n)
      modifies `data, `Repr
      ensures data == old(data)[ele := R.Pair(ele.value.key, ele.value.value)] && Repr == old(Repr) + {ele, ele.value}
      ensures forall n :: n in linkedList.nodes ==> n in Repr && n.value in Repr && Stores(n)
      ensures Indexes(cache[ele.value.key := ele], linkedList.nodes, data)
      ensures R.Total(Contents()) == R.Total(Listing(nodes, old(data))) + R.Size(data[ele])
      ensures Contents() == R.Front(Listing(nodes, old(data)), ele.value.key, ele.value.value)
    {
      var e := R.Pair(ele.value.key, ele.value.value);
      ListingPush(cache, nodes, data, ele, e);
      data, Repr := data[ele := e], Repr + {ele, ele.value};
      forall n | n in linkedList.nodes
        ensures n in Repr && n.value in Repr && Stores(n)
      {
        assert n != ele ==> old(Stores(n));
      }
    }

    /** The branch of `Add` for a key that is cached. */
    method Update(key: string, value: Bytes)
      requires Valid() && key in cache
      modifies Repr
      ensures Valid() && Repr == old(Repr) && evicted == old(evicted)
      ensures Contents() == R.Front(old(Contents()), key, value)
    {
      ListingLookup(cache, linkedList.nodes, data, key);
      var ele := cache[key];
      Promote(key, ele);
      Rewrite(ele, value);
    }

    /** Give the entry at the front a new value. */
    method Rewrite(ele: Element, value: Bytes)
      requires Valid() && linkedList.nodes != [] && linkedList.nodes[0] == ele
      modifies this, ele.value
      ensures Valid() && Repr == old(Repr) && evicted == old(evicted)
      ensures Contents() == [R.Pair(old(Contents())[0].key, value)] + old(Contents())[1..]
    {
      ListingHead(linkedList.nodes, data, value);
      var kv := ele.value;
      usedBytes := usedBytes + |value| - |kv.value|;
      kv.value := value;
      data := data[ele := R.Pair(kv.key, value)];
    }

    /** The eviction loop of `Add`. */
    method Shrink()
      requires Valid() && maxBytes >= 0
      modifies Repr
      ensures Valid() && Repr == old(Repr)
      ensures Contents() == R.Trim(old(Contents()), maxBytes)
      ensures evicted == old(evicted) + Reversed(old(Contents())[|Contents()|..])
    {
      ghost var all, before := Contents(), evicted;
      while maxBytes != 0 && usedBytes > maxBytes
        invariant Valid() && Repr == old(Repr)
        invariant Evicting(all, Contents(), before, evicted, maxBytes)
        decreases |Contents()|
      {
        ShrinkByOne(all, before);
      }
      EvictionDone(all, Contents(), before, evicted, maxBytes);
    }

    /** One round of it. */
    method ShrinkByOne(ghost all: seq<R.Pair>, ghost before: seq<R.Pair>)
      requires Valid() && maxBytes > 0 && usedBytes > maxBytes
      requires Evicting(all, Contents(), before, evicted, maxBytes)
      modifies Repr
      ensures Valid() && Repr == old(Repr)
      ensures Evicting(all, Contents(), before, evicted, maxBytes) && |Contents()| < |old(Contents())|
    {
      EvictOne(all, Contents(), before, evicted, maxBytes);
      RemoveOldest();
    }

    method Len() returns (n: nat)
      requires Valid()
      ensures n == |Contents()|
    {
      n := linkedList.len;
    }
  }

  function Reversed<T>(s: seq<T>): (r: seq<T>) {
    if s == [] then [] else Reversed(s[1..]) + [s[0]]
  }

  lemma ReversedCons<T>(x: T, s: seq<T>)
    ensures Reversed([x] + s) == Reversed(s) + [x]
  {
  }
}
