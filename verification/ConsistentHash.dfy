/** The consistent-hash map: a sorted slice of ring positions and a table from positions to nodes. */
module ConsistentHash {
  import opened HashRing
  import Sorting

  ghost predicate Sorted(s: seq<int>) {
    forall i, j :: 0 <= i < j < |s| ==> s[i] <= s[j]
  }

  /** Stands for `sort.Ints`; only the contract matters. */
  function SortInts(s: seq<int>): (r: seq<int>)
    ensures Sorted(r) && multiset(r) == multiset(s)
  {
    Sorting.Sort(s, (a: int, b: int) => a <= b)
  }

  /** The positions of the first `n` virtual nodes of `name`, as they are hashed. */
  function PositionsOf(name: string, n: nat, hash: Hash): seq<int> {
    if n == 0 then [] else PositionsOf(name, n - 1, hash) + [hash(Label(n - 1, name))]
  }

  function PositionsOfAll(names: seq<string>, replicas: nat, hash: Hash): seq<int> {
    if names == [] then []
    else PositionsOfAll(names[..|names| - 1], replicas, hash) + PositionsOf(names[|names| - 1], replicas, hash)
  }

  lemma {:induction false} OneMoreNode(keys: seq<int>, names: seq<string>, name: string, replicas: nat, hash: Hash)
    requires multiset(keys) == multiset(PositionsOfAll(names, replicas, hash))
    ensures multiset(keys + PositionsOf(name, replicas, hash)) ==
            multiset(PositionsOfAll(names + [name], replicas, hash))
    ensures Ring(names + [name], replicas, hash) == Place(Ring(names, replicas, hash), name, replicas, hash)
  {
    assert (names + [name])[..|names|] == names;
  }

  lemma PositionsOfNode(points: Points, name: string, n: nat, hash: Hash, p: int)
    ensures p in Place(points, name, n, hash) <==> p in points || p in PositionsOf(name, n, hash)
  {
    if n > 0 {
      PositionsOfNode(points, name, n - 1, hash, p);
    }
  }

  lemma PositionsAreRing(names: seq<string>, replicas: nat, hash: Hash, p: int)
    ensures p in PositionsOfAll(names, replicas, hash) <==> p in Ring(names, replicas, hash)
  {
    if names != [] {
      var rest := names[..|names| - 1];
      PositionsAreRing(rest, replicas, hash, p);
      PositionsOfNode(Ring(rest, replicas, hash), names[|names| - 1], replicas, hash, p);
    }
  }

  lemma KeysAreRing(keys: seq<int>, names: seq<string>, replicas: nat, hash: Hash)
    requires multiset(keys) == multiset(PositionsOfAll(names, replicas, hash))
    ensures forall p :: p in keys <==> p in Ring(names, replicas, hash)
  {
    forall p
      ensures p in keys <==> p in Ring(names, replicas, hash)
    {
      PositionsAreRing(names, replicas, hash, p);
      assert p in keys <==> p in multiset(keys);
      assert p in multiset(keys) <==> p in PositionsOfAll(names, replicas, hash);
    }
  }

  /** The index a binary search for `h` ends at, taken around the ring, serves `h`. */
  lemma SearchServes(keys: seq<int>, positions: set<int>, h: int, lo: nat)
    requires Sorted(keys) && keys != [] && lo <= |keys|
    requires forall p :: p in keys <==> p in positions
    requires forall i :: 0 <= i < lo ==> keys[i] < h
    requires forall i :: lo <= i < |keys| ==> keys[i] >= h
    ensures Serves(positions, h, keys[lo % |keys|])
  {
    AroundTheRing(lo, |keys|);
    if lo < |keys| {
      SearchFound(keys, positions, h, lo);
    } else {
      SearchWraps(keys, positions, h);
    }
  }

  lemma AroundTheRing(i: nat, n: nat)
    requires i <= n && n > 0
    ensures i % n == if i < n then i else 0
  {
  }

  lemma SearchWraps(keys: seq<int>, positions: set<int>, h: int)
    requires Sorted(keys) && keys != []
    requires forall p :: p in keys <==> p in positions
    requires forall i :: 0 <= i < |keys| ==> keys[i] < h
    ensures Serves(positions, h, keys[0])
  {
    assert keys[0] in keys;
    forall q | q in positions
      ensures keys[0] <= q < h
    {
      var i :| 0 <= i < |keys| && keys[i] == q;
    }
  }

  lemma SearchFound(keys: seq<int>, positions: set<int>, h: int, lo: nat)
    requires Sorted(keys) && lo < |keys|
    requires forall p :: p in keys <==> p in positions
    requires forall i :: 0 <= i < lo ==> keys[i] < h
    requires keys[lo] >= h
    ensures Serves(positions, h, keys[lo])
  {
    assert keys[lo] in keys;
    forall q | q in positions && q >= h
      ensures keys[lo] <= q
    {
      var i :| 0 <= i < |keys| && keys[i] == q;
      assert lo <= i;
    }
  }

  lemma OneNameMore(added: seq<string>, names: seq<string>, n: nat)
    requires n < |names|
    ensures added + names[..n] + [names[n]] == added + names[..n + 1]
  {
  }

  class Map {
    const hash: Hash
    const replicas: int
    var keys: seq<int>
    var hashMap: map<int, string>
    /** Every name given to `Add`, in order. */
    ghost var added: seq<string>

    ghost function Replicas(): nat {
      if replicas < 0 then 0 else replicas
    }

    /** Up to the sort: the slice holds every position ever added, the table who is there. */
    ghost predicate Holds(names: seq<string>)
      reads this
    {
      && multiset(keys) == multiset(PositionsOfAll(names, Replicas(), hash))
      && hashMap == Ring(names, Replicas(), hash)
    }

    /** The slice is sorted and has exactly the positions of the table, repeats allowed. */
    ghost predicate Valid()
      reads this
    {
      Holds(added) && Sorted(keys) && forall p :: p in keys <==> p in hashMap
    }

    constructor (replicas: int, hash: Hash)
      ensures Valid() && added == [] && this.replicas == replicas && this.hash == hash
    {
      this.replicas, this.hash := replicas, hash;
      keys, hashMap, added := [], map[], [];
    }

    method Add(names: seq<string>)
      requires Valid()
      modifies this
      ensures Valid() && added == old(added) + names
    {
      AddNodes(names);
      keys := SortInts(keys);
      added := added + names;
      KeysAreRing(keys, added, Replicas(), hash);
    }

    /** `Add`'s outer loop. */
    method AddNodes(names: seq<string>)
      requires Holds(added)
      modifies `keys, `hashMap
      ensures Holds(added + names)
    {
      ghost var done := added;
      for n := 0 to |names|
        invariant Holds(done) && done == added + names[..n]
      {
        AddNode(names[n], done);
        OneNameMore(added, names, n);
        done := done + [names[n]];
      }
      assert names[..|names|] == names;
    }

    /** One round of it. */
    method AddNode(key: string, ghost names: seq<string>)
      requires Holds(names)
      modifies `keys, `hashMap
      ensures Holds(names + [key])
    {
      OneMoreNode(keys, names, key, Replicas(), hash);
      AddVirtualNodes(key);
    }

    /** The inner loop of `Add`. */
    method AddVirtualNodes(key: string)
      modifies `keys, `hashMap
      ensures keys == old(keys) + PositionsOf(key, Replicas(), hash)
      ensures hashMap == Place(old(hashMap), key, Replicas(), hash)
    {
      var i := 0;
      while i < replicas
        invariant 0 <= i <= Replicas()
        invariant keys == old(keys) + PositionsOf(key, i, hash)
        invariant hashMap == Place(old(hashMap), key, i, hash)
      {
        var hashed := hash(Label(i, key));
        keys := keys + [hashed];
        hashMap := hashMap[hashed := key];
        i := i + 1;
      }
    }

    /** Binary search for the first position not below the hash, wrapping to the first of all. */
    method Get(key: string) returns (node: string)
      requires Valid()
      ensures node == Owner(Ring(added, Replicas(), hash), hash(key))
    {
      if |keys| == 0 {
        if hashMap.Keys != {} {
          ghost var p := Member(hashMap.Keys);
        }
        return "";
      }
      var hashed: int := hash(key);
      var lo, hi := 0, |keys|;
      while lo < hi
        invariant 0 <= lo <= hi <= |keys|
        invariant forall i :: 0 <= i < lo ==> keys[i] < hashed
        invariant forall i :: hi <= i < |keys| ==> keys[i] >= hashed
      {
        var mid := (lo + hi) / 2;
        if keys[mid] >= hashed {
          hi := mid;
        } else {
          lo := mid + 1;
        }
      }
      var p := keys[lo % |keys|];
      SearchServes(keys, hashMap.Keys, hashed, lo);
      OwnerFrom(hashMap, hashed, p);
      node := hashMap[p];
    }
  }
}
