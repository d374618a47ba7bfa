/** A node's view of the cluster: the ring of peers and who answers for a key. */
module HttpPool {
  import opened Basics
  import opened HashRing
  import CH = ConsistentHash

  const DEFAULT_REPLICAS := 3
  const DEFAULT_BASE_PATH := "/ccache/"

  /** Replicas of a pool built with option `opt`. The option is only looked at when it is zero;
      any other value leaves the field at zero. */
  function PoolReplicas(opt: int): nat {
    if opt == 0 then DEFAULT_REPLICAS else 0
  }

  datatype Getter = Getter(baseURL: string)

  /** The peer a node asks for a hash, or none when it answers itself. */
  ghost function Choice(points: Points, self: string, h: int): Option<string> {
    var owner := Owner(points, h);
    if owner != "" && owner != self then Some(owner) else None
  }

  class Pool {
    const self: string
    const basePath: string
    const replicas: nat
    const hash: Hash
    var peers: CH.Map?
    var httpGetters: map<string, Getter>
    /** The last list given to `Set`. */
    ghost var names: seq<string>

    ghost predicate Valid()
      reads this, peers
    {
      && (peers == null ==> names == [])
      && (peers != null ==>
            && peers.Valid() && peers.added == names && peers.replicas == replicas && peers.hash == hash
            && forall n :: n in names ==> n in httpGetters && httpGetters[n] == Getter(n + basePath))
    }

    /** `hash` stands for the CRC-32 checksum that `Set` asks for. */
    constructor (self: string, optReplicas: int, hash: Hash)
      ensures Valid() && names == [] && this.self == self && this.hash == hash
      ensures basePath == "/ccache/" && replicas == PoolReplicas(optReplicas)
    {
      this.self, this.hash, basePath := self, hash, DEFAULT_BASE_PATH;
      replicas := if optReplicas == 0 then DEFAULT_REPLICAS else 0;
      peers, httpGetters, names := null, map[], [];
    }

    method Set(names: seq<string>)
      requires Valid()
      modifies this
      ensures Valid() && this.names == names && fresh(peers)
    {
      peers := new CH.Map(replicas, hash);
      peers.Add(names);
      this.names := names;
      FillGetters(names);
    }

    /** The loop at the end of `Set`. */
    method FillGetters(names: seq<string>)
      modifies `httpGetters
      ensures forall n :: n in names ==> n in httpGetters && httpGetters[n] == Getter(n + basePath)
    {
      for i := 0 to |names|
        invariant forall j :: 0 <= j < i ==>
                    names[j] in httpGetters && httpGetters[names[j]] == Getter(names[j] + basePath)
      {
        httpGetters := httpGetters[names[i] := Getter(names[i] + basePath)];
      }
    }

    /** Never a missing getter: a picked peer is one of the list given to `Set`. */
    method PickPeer(key: string) returns (getter: Option<Getter>)
      requires Valid()
      ensures var choice := Choice(Ring(names, replicas, hash), self, hash(key));
              getter == if choice.None? then None else Some(Getter(choice.value + basePath))
    {
      if peers == null {
        assert Ring(names, replicas, hash) == map[];
        return None;
      }
      var peer := peers.Get(key);
      if peer != "" && peer != self {
        OwnerIsNode(names, replicas, hash, hash(key));
        return Some(httpGetters[peer]);
      }
      return None;
    }
  }

  lemma OwnerIsNode(names: seq<string>, replicas: nat, hash: Hash, h: int)
    ensures Owner(Ring(names, replicas, hash), h) == "" || Owner(Ring(names, replicas, hash), h) in names
    ensures names != [] && replicas > 0 ==> Owner(Ring(names, replicas, hash), h) in names
  {
    var points := Ring(names, replicas, hash);
    if names != [] && replicas > 0 {
      var p: int := hash(Label(0, names[0]));
      assert Hits(p, names[0], replicas, hash);
      RingAt(names, replicas, hash, p);
      assert p in points.Keys;
    }
    if points.Keys != {} {
      var p := Position(points.Keys, h);
      RingAt(names, replicas, hash, p);
      var j: nat :| LastHit(names, j, p, replicas, hash);
    }
  }

  /** Every key of every non-empty cluster has an owner among the peers exactly when the pool was
      built with the option left at zero. */
  lemma RoutesIff(opt: int, hash: Hash)
    ensures (forall names, key :: names != [] ==> Owner(Ring(names, PoolReplicas(opt), hash), hash(key)) in names)
       <==> opt == 0
  {
    if opt == 0 {
      forall names: seq<string>, key | names != []
        ensures Owner(Ring(names, PoolReplicas(opt), hash), hash(key)) in names
      {
        OwnerIsNode(names, PoolReplicas(opt), hash, hash(key));
      }
    } else {
      EmptyRing(["a"], hash);
      assert Owner(Ring(["a"], PoolReplicas(opt), hash), hash("")) !in ["a"];
    }
  }

  /** A pool built with the option left at zero puts three virtual nodes of every peer on the ring. */
  lemma DefaultRing(names: seq<string>, hash: Hash, p: int)
    ensures p in Ring(names, PoolReplicas(0), hash) <==>
            exists name :: name in names && p in {hash("0" + name), hash("1" + name), hash("2" + name)}
  {
    RingAt(names, 3, hash, p);
    forall name
      ensures Hits(p, name, 3, hash) <==> p in {hash("0" + name), hash("1" + name), hash("2" + name)}
    {
      assert Label(0, name) == "0" + name && Label(1, name) == "1" + name && Label(2, name) == "2" + name;
    }
  }

  lemma EmptyRing(names: seq<string>, hash: Hash)
    ensures Ring(names, 0, hash) == map[]
  {
    if names != [] {
      EmptyRing(names[..|names| - 1], hash);
    }
  }
}
