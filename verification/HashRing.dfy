/** Consistent hashing on values: where virtual nodes lie on the ring and which node serves a hash.
    Nothing is assumed about the hash function; collisions are a hypothesis only where stated. */
module HashRing {
  import opened Text

  type Uint32 = x: int | 0 <= x < 0x1_0000_0000
  type Hash = string -> Uint32
  /** Ring positions and the node stored at each. */
  type Points = map<int, string>

  function Label(i: nat, name: string): string {
    Itoa(i) + name
  }

  /** The ring after storing the first `n` virtual nodes of `name`. */
  function Place(points: Points, name: string, n: nat, hash: Hash): Points {
    if n == 0 then points
    else Place(points, name, n - 1, hash)[hash(Label(n - 1, name)) := name]
  }

  /** The ring after adding `names` in this order; a later node overwrites an earlier one. */
  function Ring(names: seq<string>, replicas: nat, hash: Hash): Points {
    if names == [] then map[]
    else Place(Ring(names[..|names| - 1], replicas, hash), names[|names| - 1], replicas, hash)
  }

  /** Some virtual node of `name` lies at `p`. */
  ghost predicate Hits(p: int, name: string, replicas: nat, hash: Hash) {
    exists i: nat :: i < replicas && hash(Label(i, name)) == p
  }

  lemma PlaceAt(points: Points, name: string, n: nat, hash: Hash, p: int)
    ensures p in Place(points, name, n, hash) <==> p in points || Hits(p, name, n, hash)
    ensures Hits(p, name, n, hash) ==> Place(points, name, n, hash)[p] == name
    ensures !Hits(p, name, n, hash) && p in points ==> Place(points, name, n, hash)[p] == points[p]
  {
    if n > 0 {
      PlaceAt(points, name, n - 1, hash, p);
      if Hits(p, name, n, hash) && hash(Label(n - 1, name)) != p {
        var i: nat :| i < n && hash(Label(i, name)) == p;
        assert i < n - 1;
      }
    }
  }

  /** The node at `p` is the last one added that has a virtual node there. */
  ghost predicate LastHit(names: seq<string>, j: nat, p: int, replicas: nat, hash: Hash) {
    && j < |names|
    && Hits(p, names[j], replicas, hash)
    && forall k :: j < k < |names| ==> !Hits(p, names[k], replicas, hash)
  }

  lemma {:induction false} RingAt(names: seq<string>, replicas: nat, hash: Hash, p: int)
    ensures p in Ring(names, replicas, hash) <==> exists j :: 0 <= j < |names| && Hits(p, names[j], replicas, hash)
    ensures forall j: nat :: LastHit(names, j, p, replicas, hash) ==>
              p in Ring(names, replicas, hash) && Ring(names, replicas, hash)[p] == names[j]
    ensures p in Ring(names, replicas, hash) ==> exists j: nat :: LastHit(names, j, p, replicas, hash)
  {
    if names != [] {
      var rest, last := names[..|names| - 1], |names| - 1;
      RingAt(rest, replicas, hash, p);
      PlaceAt(Ring(rest, replicas, hash), names[last], replicas, hash, p);
      if Hits(p, names[last], replicas, hash) {
        assert LastHit(names, last, p, replicas, hash);
      } else {
        forall j: nat
          ensures LastHit(names, j, p, replicas, hash) <==> LastHit(rest, j, p, replicas, hash)
        {
          if LastHit(rest, j, p, replicas, hash) {
            forall k | j < k < |names| ensures !Hits(p, names[k], replicas, hash) {
              assert k < last ==> rest[k] == names[k];
            }
          }
        }
        if p in Ring(rest, replicas, hash) {
          var j: nat :| LastHit(rest, j, p, replicas, hash);
          assert LastHit(names, j, p, replicas, hash);
        }
      }
    }
  }

  // ---------------------------------------------------------------------------------
  // Which position serves a hash

  /** `p` is the hash of a number below `replicas`, written out in front of the name. */
  ghost predicate Carries(name: string, p: int, replicas: nat, hash: Hash) {
    exists digits :: IsPlain(digits) && Reads(digits) < replicas && hash(digits + name) == p
  }

  lemma HitsIffCarries(name: string, p: int, replicas: nat, hash: Hash)
    ensures Hits(p, name, replicas, hash) <==> Carries(name, p, replicas, hash)
  {
    if Hits(p, name, replicas, hash) {
      var i: nat :| i < replicas && hash(Label(i, name)) == p;
      ItoaReads(i);
      assert hash(Itoa(i) + name) == p;
    }
    if Carries(name, p, replicas, hash) {
      var digits :| IsPlain(digits) && Reads(digits) < replicas && hash(digits + name) == p;
      PlainIsItoa(digits);
      assert hash(Label(Reads(digits), name)) == p;
    }
  }

  /** What lies where on the ring: exactly the hashes of plain numerals below `replicas` followed by
      the name of an added node, each with the node of them that was added last. */
  lemma {:induction false} RingCarries(names: seq<string>, replicas: nat, hash: Hash, p: int)
    ensures p in Ring(names, replicas, hash) <==>
            exists j :: 0 <= j < |names| && Carries(names[j], p, replicas, hash)
    ensures forall j :: 0 <= j < |names| && Carries(names[j], p, replicas, hash) &&
                        (forall k :: j < k < |names| ==> !Carries(names[k], p, replicas, hash)) ==>
              p in Ring(names, replicas, hash) && Ring(names, replicas, hash)[p] == names[j]
  {
    RingAt(names, replicas, hash, p);
    forall j | 0 <= j < |names|
      ensures Hits(p, names[j], replicas, hash) <==> Carries(names[j], p, replicas, hash)
    {
      HitsIffCarries(names[j], p, replicas, hash);
    }
    forall j: nat | j < |names| && Carries(names[j], p, replicas, hash) &&
                    forall k :: j < k < |names| ==> !Carries(names[k], p, replicas, hash)
      ensures p in Ring(names, replicas, hash) && Ring(names, replicas, hash)[p] == names[j]
    {
      assert LastHit(names, j, p, replicas, hash);
    }
  }

  /** `p` is the least position not below `h`, or the least of all when there is none. */
  ghost predicate Serves(s: set<int>, h: int, p: int) {
    && p in s
    && if p >= h then forall q :: q in s && q >= h ==> p <= q
       else forall q :: q in s ==> q < h && p <= q
  }

  lemma ServesUnique(s: set<int>, h: int, p: int, q: int)
    requires Serves(s, h, p) && Serves(s, h, q)
    ensures p == q
  {
  }

  lemma Member<T>(s: set<T>) returns (x: T)
    requires s != {}
    ensures x in s
  {
    x :| x in s;
  }

  lemma {:induction false} ServesExists(s: set<int>, h: int)
    requires s != {}
    ensures exists p :: Serves(s, h, p)
  {
    var x := Member(s);
    var rest := s - {x};
    if rest == {} {
      assert s == {x};
      assert Serves(s, h, x);
    } else {
      ServesExists(rest, h);
      var p :| Serves(rest, h, p);
      assert s == rest + {x};
      if (p >= h && h <= x < p) || (p < h && (x >= h || x < p)) {
        assert Serves(s, h, x);
      } else {
        assert Serves(s, h, p);
      }
    }
  }

  ghost function Position(s: set<int>, h: int): (p: int)
    requires s != {}
    ensures Serves(s, h, p)
  {
    ServesExists(s, h);
    var p :| Serves(s, h, p);
    p
  }

  /** The node that serves hash `h`; an empty ring serves nothing. */
  ghost function Owner(points: Points, h: int): string {
    if points.Keys == {} then "" else points[Position(points.Keys, h)]
  }

  lemma OwnerFrom(points: Points, h: int, p: int)
    requires Serves(points.Keys, h, p)
    ensures Owner(points, h) == points[p]
  {
    ServesUnique(points.Keys, h, p, Position(points.Keys, h));
  }

  /** Monotonicity, for any hash: adding nodes moves a hash only to one of the added nodes. */
  lemma Monotone(names: seq<string>, added: seq<string>, replicas: nat, hash: Hash, h: int)
    ensures var owner := Owner(Ring(names + added, replicas, hash), h);
            owner == Owner(Ring(names, replicas, hash), h) || owner in added
  {
    var before, after := Ring(names, replicas, hash), Ring(names + added, replicas, hash);
    if after.Keys != {} {
      var p := Position(after.Keys, h);
      RingAt(names + added, replicas, hash, p);
      var j: nat :| LastHit(names + added, j, p, replicas, hash);
      if j < |names| {
        KeptPoint(names, added, replicas, hash, p, j);
        forall q | q in before
          ensures q in after
        {
          RingAt(names, replicas, hash, q);
          RingAt(names + added, replicas, hash, q);
          var k :| 0 <= k < |names| && Hits(q, names[k], replicas, hash);
          assert (names + added)[k] == names[k];
        }
        OwnerFrom(before, h, p);
      } else {
        assert (names + added)[j] == added[j - |names|];
      }
    } else if before.Keys != {} {
      var q := Position(before.Keys, h);
      RingAt(names, replicas, hash, q);
      var k :| 0 <= k < |names| && Hits(q, names[k], replicas, hash);
      assert Hits(q, (names + added)[k], replicas, hash);
      RingAt(names + added, replicas, hash, q);
    }
  }

  lemma KeptPoint(names: seq<string>, added: seq<string>, replicas: nat, hash: Hash, p: int, j: nat)
    requires j < |names| && LastHit(names + added, j, p, replicas, hash)
    ensures p in Ring(names, replicas, hash) && Ring(names, replicas, hash)[p] == names[j]
    ensures p in Ring(names + added, replicas, hash) && Ring(names + added, replicas, hash)[p] == names[j]
  {
    assert LastHit(names, j, p, replicas, hash) by {
      forall k | j < k < |names|
        ensures !Hits(p, names[k], replicas, hash)
      {
        assert (names + added)[k] == names[k];
      }
    }
    RingAt(names, replicas, hash, p);
    RingAt(names + added, replicas, hash, p);
  }

  // ---------------------------------------------------------------------------------
  // When the order of adding does not matter

  ghost function Nodes(names: seq<string>): set<string> {
    set x | x in names
  }

  /** No position is shared by virtual nodes of two different nodes. */
  ghost predicate NoCollision(names: seq<string>, replicas: nat, hash: Hash) {
    forall a, b, p :: a in names && b in names && Hits(p, a, replicas, hash) && Hits(p, b, replicas, hash) ==> a == b
  }

  /** Adding the same set of nodes in any order, any split and with any repeats serves every key alike. */
  ghost predicate OrderIrrelevant(names: seq<string>, replicas: nat, hash: Hash) {
    forall names', key :: Nodes(names') == Nodes(names) ==>
      Owner(Ring(names', replicas, hash), hash(key)) == Owner(Ring(names, replicas, hash), hash(key))
  }

  lemma SameRing(names: seq<string>, names': seq<string>, replicas: nat, hash: Hash)
    requires NoCollision(names, replicas, hash) && Nodes(names') == Nodes(names)
    ensures Ring(names', replicas, hash) == Ring(names, replicas, hash)
  {
    forall x ensures x in names <==> x in names' {
      assert x in Nodes(names) <==> x in Nodes(names');
    }
    var r, r' := Ring(names, replicas, hash), Ring(names', replicas, hash);
    forall p
      ensures p in r <==> p in r'
      ensures p in r ==> r[p] == r'[p]
    {
      RingAt(names, replicas, hash, p);
      RingAt(names', replicas, hash, p);
      if p in r {
        var j: nat :| LastHit(names, j, p, replicas, hash);
        assert names[j] in names';
      }
      if p in r' {
        var j': nat :| LastHit(names', j', p, replicas, hash);
        assert names'[j'] in names;
      }
    }
  }

  /** The order of adding is irrelevant exactly when virtual nodes of different nodes do not collide. */
  lemma OrderIrrelevantIff(names: seq<string>, replicas: nat, hash: Hash)
    ensures OrderIrrelevant(names, replicas, hash) <==> NoCollision(names, replicas, hash)
  {
    if NoCollision(names, replicas, hash) {
      forall names', key | Nodes(names') == Nodes(names)
        ensures Owner(Ring(names', replicas, hash), hash(key)) == Owner(Ring(names, replicas, hash), hash(key))
      {
        SameRing(names, names', replicas, hash);
      }
    } else {
      CollisionShows(names, replicas, hash);
    }
  }

  lemma CollisionShows(names: seq<string>, replicas: nat, hash: Hash)
    requires !NoCollision(names, replicas, hash)
    ensures !OrderIrrelevant(names, replicas, hash)
  {
    var a, b, p :| a in names && b in names && Hits(p, a, replicas, hash) && Hits(p, b, replicas, hash) && a != b;
    var i: nat :| i < replicas && hash(Label(i, a)) == p;
    var key := Label(i, a);
    LastWins(names, a, replicas, hash, p);
    LastWins(names, b, replicas, hash, p);
    assert Owner(Ring(names + [a], replicas, hash), hash(key)) == a;
    assert Owner(Ring(names + [b], replicas, hash), hash(key)) == b;
  }

  lemma LastWins(names: seq<string>, a: string, replicas: nat, hash: Hash, p: int)
    requires a in names && Hits(p, a, replicas, hash)
    ensures Nodes(names + [a]) == Nodes(names)
    ensures Owner(Ring(names + [a], replicas, hash), p) == a
  {
    assert LastHit(names + [a], |names|, p, replicas, hash);
    RingAt(names + [a], replicas, hash, p);
    OwnerFrom(Ring(names + [a], replicas, hash), p, p);
  }

  /** Labels of virtual nodes are distinct, whatever the nodes are called. */
  ghost predicate LabelsDistinct(replicas: nat) {
    forall i: nat, j: nat, a, b :: i < replicas && j < replicas && Label(i, a) == Label(j, b) ==> i == j && a == b
  }

  /** `Itoa(i)+name` tells virtual nodes apart exactly up to ten replicas. */
  lemma LabelsDistinctIff(replicas: nat)
    ensures LabelsDistinct(replicas) <==> replicas <= 10
  {
    if replicas <= 10 {
      forall i: nat, j: nat, a, b | i < replicas && j < replicas && Label(i, a) == Label(j, b)
        ensures i == j && a == b
      {
        assert Label(i, a)[0] == Digit(i) && Label(j, b)[0] == Digit(j);
        assert Label(i, a)[1..] == a && Label(j, b)[1..] == b;
      }
    } else {
      assert Itoa(10) == Itoa(1) + [Digit(0)];
      assert Label(1, "0a") == "10a" == Label(10, "a");
    }
  }

  /** Up to ten replicas, a hash that keeps the labels in use apart never collides. */
  lemma SeparatedLabelsDoNotCollide(names: seq<string>, replicas: nat, hash: Hash)
    requires replicas <= 10
    requires forall a, b, i: nat, j: nat | a in names && b in names && i < replicas && j < replicas ::
               hash(Label(i, a)) == hash(Label(j, b)) ==> Label(i, a) == Label(j, b)
    ensures NoCollision(names, replicas, hash)
  {
    LabelsDistinctIff(replicas);
  }
}
