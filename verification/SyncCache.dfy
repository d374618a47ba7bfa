/** The cache of a group: the LRU cache behind a mutex, created by the first `add`.
    Each method runs under the mutex and is one atomic step of `GroupGet`. */
module SyncCache {
  import opened Basics
  import R = Recency
  import Lru

  class Cache {
    var lru: Lru.Cache?
    const cacheBytes: int
    ghost var Repr: set<object>

    ghost predicate Valid()
      reads this, Repr
    {
      && this in Repr
      && (lru != null ==>
            lru in Repr && lru.Repr <= Repr && this !in lru.Repr && lru.Valid() && lru.maxBytes == cacheBytes)
    }

    /** The entries, most recently used first. */
    ghost function Contents(): seq<R.Pair>
      requires Valid()
      reads this, Repr
    {
      if lru == null then [] else lru.Contents()
    }

    constructor (cacheBytes: int)
      ensures Valid() && fresh(Repr) && Contents() == [] && this.cacheBytes == cacheBytes
    {
      this.cacheBytes := cacheBytes;
      lru := null;
      new;
      Repr := {this};
    }

    method Add(key: string, value: Bytes)
      requires Valid() && cacheBytes >= 0
      modifies Repr
      ensures Valid() && fresh(Repr - old(Repr))
      ensures Contents() == R.Add(old(Contents()), key, value, cacheBytes)
    {
      if lru == null {
        Create();
      }
      lru.Add(key, value);
      Repr := Repr + lru.Repr;
    }

    method Create()
      requires Valid() && lru == null
      modifies this
      ensures Valid() && lru != null && fresh(Repr - old(Repr)) && Contents() == []
    {
      lru := new Lru.Cache(cacheBytes);
      Repr := Repr + lru.Repr;
    }

    method Get(key: string) returns (value: Option<Bytes>)
      requires Valid()
      modifies Repr
      ensures Valid() && Repr == old(Repr)
      ensures Contents() == R.Get(old(Contents()), key)
      ensures value == if R.Has(old(Contents()), key)
                       then Some(old(Contents())[R.IndexOf(old(Contents()), key)].value) else None
    {
      if lru == null {
        return None;
      }
      value := lru.Get(key);
    }
  }
}
