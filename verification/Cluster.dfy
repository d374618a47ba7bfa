/** All nodes together: which node answers for a key, and what the nodes cache in every run. */
module Cluster {
  import opened Basics
  import opened HashRing
  import opened HttpPool
  import GG = GroupGet
  import SF = SingleFlight

  /** Each node's own peer list, in whatever order it was given; every node hashes alike. */
  datatype Config = Config(lists: map<string, seq<string>>, replicas: nat, hash: Hash)

  /** The nodes agree on the set of peers, each is among them, and virtual nodes do not collide. */
  ghost predicate Agreed(c: Config) {
    && c.lists.Keys != {} && "" !in c.lists && c.replicas > 0
    && (forall n :: n in c.lists ==> Nodes(c.lists[n]) == c.lists.Keys)
    && (forall n :: n in c.lists ==> NoCollision(c.lists[n], c.replicas, c.hash))
  }

  /** The peer node `n` asks for `key`, or none when `PickPeer` declines. */
  ghost function Pick(c: Config, n: string, key: string): Option<string>
    requires n in c.lists
  {
    Choice(Ring(c.lists[n], c.replicas, c.hash), n, c.hash(key))
  }

  ghost predicate Declines(c: Config, n: string, key: string) {
    n in c.lists && Pick(c, n, key).None?
  }

  /** Exactly one node declines a key, and every other node sends its requests straight to it:
      a request reaches the node that answers it in at most one hop. */
  lemma OneHop(c: Config, key: string) returns (owner: string)
    requires Agreed(c)
    ensures forall n :: Declines(c, n, key) <==> n == owner
    ensures forall n :: n in c.lists && n != owner ==> Pick(c, n, key) == Some(owner)
    ensures owner in c.lists
  {
    var some := Member(c.lists.Keys);
    var names := c.lists[some];
    assert some in Nodes(names);
    OwnerIsNode(names, c.replicas, c.hash, c.hash(key));
    owner := Owner(Ring(names, c.replicas, c.hash), c.hash(key));
    assert owner in Nodes(names);
    forall n | n in c.lists
      ensures Ring(c.lists[n], c.replicas, c.hash) == Ring(names, c.replicas, c.hash)
    {
      SameRing(names, c.lists[n], c.replicas, c.hash);
    }
  }

  /** At most one node declines a key. */
  lemma OneOwner(c: Config, key: string, n: string, n': string)
    requires Agreed(c) && Declines(c, n, key) && Declines(c, n', key)
    ensures n == n'
  {
    var owner := OneHop(c, key);
  }

  // ---------------------------------------------------------------------------------
  // Runs of the whole cluster

  type State = map<string, GG.State>

  datatype Step = Step(node: string, step: GG.Step)

  /** Every node starts with an empty cache of its own size. */
  ghost function Init(sizes: map<string, nat>): State {
    map n | n in sizes :: GG.Init(sizes[n])
  }

  ghost predicate Enabled(c: Config, s: State, step: Step) {
    && step.node in s && step.node in c.lists
    && GG.Enabled(s[step.node], step.step)
    && (step.step.Pick? ==>
          step.step.remote == !Declines(c, step.node, GG.Key(s[step.node], step.step.t)))
  }

  ghost function Exec(c: Config, sizes: map<string, nat>, steps: seq<Step>): Option<State> {
    if steps == [] then Some(Init(sizes))
    else match Exec(c, sizes, steps[..|steps| - 1])
      case None => None
      case Some(s) =>
        var step := steps[|steps| - 1];
        if Enabled(c, s, step) then Some(s[step.node := GG.Apply(s[step.node], step.step)]) else None
  }

  ghost function OwnedBy(c: Config, n: string): GG.Ownership {
    key => Declines(c, n, key)
  }

  ghost predicate NodeOk(c: Config, s: State, n: string)
    requires n in s
  {
    GG.Inv(s[n]) && GG.Sourced(s[n]) && GG.OwnedOnly(s[n], OwnedBy(c, n))
  }

  lemma {:induction false} NodesHold(c: Config, sizes: map<string, nat>, steps: seq<Step>, n: string)
    requires Exec(c, sizes, steps).Some? && n in Exec(c, sizes, steps).value
    ensures NodeOk(c, Exec(c, sizes, steps).value, n)
  {
    if steps != [] {
      var before, step := steps[..|steps| - 1], steps[|steps| - 1];
      var s := Exec(c, sizes, before).value;
      NodesHold(c, sizes, before, n);
      if step.node == n {
        GG.InvStep(s[n], step.step);
        GG.SourcedStep(s[n], step.step);
        GG.OwnedStep(s[n], step.step, OwnedBy(c, n));
      }
    }
  }

  /** In every reachable state of the cluster a node caches, and loads from the source, only keys
      for which it declines to pick a peer. */
  lemma NodesCacheWhatTheyOwn(c: Config, sizes: map<string, nat>, steps: seq<Step>, n: string, key: string)
    requires Exec(c, sizes, steps).Some? && n in Exec(c, sizes, steps).value
    ensures var s := Exec(c, sizes, steps).value[n];
            GG.R.Has(s.lru, key) || key in s.loads ==> Declines(c, n, key)
  {
    NodesHold(c, sizes, steps, n);
    var s := Exec(c, sizes, steps).value[n];
    assert GG.OwnedOnly(s, OwnedBy(c, n));
    if GG.R.Has(s.lru, key) {
      assert s.lru[GG.R.IndexOf(s.lru, key)] in s.lru;
      assert OwnedBy(c, n)(key);
    } else if key in s.loads {
      assert OwnedBy(c, n)(key);
    }
  }

  /** So in an agreed cluster no key is ever cached, or loaded, by two nodes. */
  lemma CachedOnce(c: Config, sizes: map<string, nat>, steps: seq<Step>, n: string, n': string, key: string)
    requires Agreed(c) && Exec(c, sizes, steps).Some?
    requires n in Exec(c, sizes, steps).value && n' in Exec(c, sizes, steps).value
    requires var s := Exec(c, sizes, steps).value;
             (GG.R.Has(s[n].lru, key) || key in s[n].loads) && (GG.R.Has(s[n'].lru, key) || key in s[n'].loads)
    ensures n == n'
  {
    NodesCacheWhatTheyOwn(c, sizes, steps, n, key);
    NodesCacheWhatTheyOwn(c, sizes, steps, n', key);
    OneOwner(c, key, n, n');
  }

  /** At the node that owns the key, a `Get` without an error returns the source's value. */
  lemma OwnerReadsTheSource(c: Config, sizes: map<string, nat>, steps: seq<Step>, n: string,
                            source: string -> Bytes, t: nat)
    requires Exec(c, sizes, steps).Some? && n in Exec(c, sizes, steps).value
    requires var s := Exec(c, sizes, steps).value[n];
             forall k, v :: (k, v) in s.fetched ==> v == source(k)
    requires var f := Exec(c, sizes, steps).value[n].flight;
             SF.AtCall(f, t) && f.threads[t].pc.Returned? && f.threads[t].pc.out.err == SF.NoError
    requires Declines(c, n, Exec(c, sizes, steps).value[n].flight.threads[t].key)
    ensures var th := Exec(c, sizes, steps).value[n].flight.threads[t]; th.pc.out.val == source(th.key)
  {
    NodesHold(c, sizes, steps, n);
    GG.OwnedKeysReadTheSource(Exec(c, sizes, steps).value[n], OwnedBy(c, n), source, t);
  }
}
