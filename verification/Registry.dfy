/** The registry's lease table: servers register and renew, and every listing drops the expired. */
module Registry {
  import opened Basics
  import Sorting

  /** A clock that never goes back; each reading may be later than the last. */
  class Clock {
    var now: int

    constructor (now: int)
      ensures this.now == now
    {
      this.now := now;
    }

    method Read() returns (t: int)
      modifies this
      ensures old(now) <= t == now
    {
      t :| t >= now;
      now := t;
    }
  }

  class ServerItem {
    const addr: string
    var start: int

    constructor (addr: string, start: int)
      ensures this.addr == addr && this.start == start
    {
      this.addr, this.start := addr, start;
    }
  }

  datatype Registration = Registration(addr: string, time: int)

  /** The time of the last registration of `addr` in the whole history. */
  function LastSeen(history: seq<Registration>, addr: string): Option<int> {
    if history == [] then None
    else
      var last := history[|history| - 1];
      if last.addr == addr then Some(last.time) else LastSeen(history[..|history| - 1], addr)
  }

  /** The answer is the time of an entry for `addr` after which there is no other. */
  lemma {:induction false} LastSeenIsLatest(history: seq<Registration>, addr: string, t: int)
    ensures LastSeen(history, addr) == Some(t) <==>
            exists i :: 0 <= i < |history| && history[i] == Registration(addr, t) &&
                        (forall j :: i < j < |history| ==> history[j].addr != addr)
  {
    if history != [] {
      var before := history[..|history| - 1];
      LastSeenIsLatest(before, addr, t);
      var last := history[|history| - 1];
      if last.addr != addr {
        assert forall i :: 0 <= i < |before| ==> before[i] == history[i];
      } else if last.time == t {
        assert last == Registration(addr, t);
      }
    }
  }

  /** A timeout of zero means that leases never expire. */
  predicate Alive(start: int, timeout: int, now: int) {
    timeout == 0 || start + timeout > now
  }

  /** The last registration of `addr` in the whole history is unexpired. */
  predicate Unexpired(history: seq<Registration>, addr: string, timeout: int, now: int) {
    LastSeen(history, addr).Some? && Alive(LastSeen(history, addr).value, timeout, now)
  }

  /** Byte-wise order of strings. */
  predicate AtMost(a: string, b: string) {
    a == [] || (b != [] && (a[0] < b[0] || (a[0] == b[0] && AtMost(a[1..], b[1..]))))
  }

  lemma AtMostTotal(a: string, b: string)
    ensures AtMost(a, b) || AtMost(b, a)
  {
  }

  lemma AtMostTransitive(a: string, b: string, c: string)
    requires AtMost(a, b) && AtMost(b, c)
    ensures AtMost(a, c)
  {
  }

  /** At `k` the strings differ for the first time, and `a` is the smaller. */
  predicate SmallerAt(a: string, b: string, k: nat) {
    k < |a| && k < |b| && a[..k] == b[..k] && a[k] < b[k]
  }

  lemma {:induction false} SmallerOneOn(a: string, b: string, k: nat)
    requires a != [] && b != [] && a[0] == b[0]
    ensures SmallerAt(a, b, k + 1) <==> SmallerAt(a[1..], b[1..], k)
  {
    if k < |a| - 1 && k < |b| - 1 {
      assert a[..k + 1] == [a[0]] + a[1..][..k] && b[..k + 1] == [b[0]] + b[1..][..k];
      assert a[1..][..k] == a[..k + 1][1..] && b[1..][..k] == b[..k + 1][1..];
    }
  }

  lemma {:induction false} AtMostShows(a: string, b: string)
    requires AtMost(a, b)
    ensures a <= b || exists k: nat :: SmallerAt(a, b, k)
  {
    if a != [] {
      if a[0] < b[0] {
        assert SmallerAt(a, b, 0);
      } else {
        AtMostShows(a[1..], b[1..]);
        if a[1..] <= b[1..] {
          assert a == [a[0]] + a[1..] && b == [b[0]] + b[1..];
        } else {
          var k: nat :| SmallerAt(a[1..], b[1..], k);
          SmallerOneOn(a, b, k);
        }
      }
    }
  }

  lemma SameHead(a: string, b: string, k: nat)
    requires SmallerAt(a, b, k) && k > 0
    ensures a[0] == b[0]
  {
    assert a[0] == a[..k][0] && b[0] == b[..k][0];
  }

  lemma {:induction false} ShowsAtMost(a: string, b: string)
    requires a <= b || exists k: nat :: SmallerAt(a, b, k)
    ensures AtMost(a, b)
  {
    forall k: nat | SmallerAt(a, b, k) && k > 0 ensures a[0] == b[0] {
      SameHead(a, b, k);
    }
    if a != [] && a[0] == b[0] {
      if k: nat :| SmallerAt(a, b, k) {
        SmallerOneOn(a, b, k - 1);
      } else {
        assert a[1..] <= b[1..];
      }
      ShowsAtMost(a[1..], b[1..]);
    }
  }

  /** A prefix comes first, and otherwise what is smaller at the first difference. */
  lemma {:induction false} AtMostIff(a: string, b: string)
    ensures AtMost(a, b) <==>
            a <= b || exists k: nat :: k < |a| && k < |b| && a[..k] == b[..k] && a[k] < b[k]
  {
    if AtMost(a, b) {
      AtMostShows(a, b);
      if k: nat :| SmallerAt(a, b, k) {
        assert k < |a| && k < |b| && a[..k] == b[..k] && a[k] < b[k];
      }
    } else {
      if k: nat :| k < |a| && k < |b| && a[..k] == b[..k] && a[k] < b[k] {
        assert SmallerAt(a, b, k);
        ShowsAtMost(a, b);
      } else if a <= b {
        ShowsAtMost(a, b);
      }
    }
  }

  ghost predicate Sorted(s: seq<string>) {
    forall i, j :: 0 <= i < j < |s| ==> AtMost(s[i], s[j])
  }

  lemma AtMostOrders()
    ensures Sorting.TotalOrder(AtMost)
  {
    forall a, b ensures AtMost(a, b) || AtMost(b, a) {
      AtMostTotal(a, b);
    }
    forall a, b, c | AtMost(a, b) && AtMost(b, c) ensures AtMost(a, c) {
      AtMostTransitive(a, b, c);
    }
  }

  /** Stands for `sort.Strings`; only the contract matters. */
  function Sort(s: seq<string>): (r: seq<string>)
    ensures Sorted(r) && multiset(r) == multiset(s)
  {
    AtMostOrders();
    Sorting.Sort(s, AtMost)
  }

  lemma SameBag(s: seq<string>, r: seq<string>)
    requires multiset(s) == multiset(r) && NoRepeats(s)
    ensures NoRepeats(r) && |r| == |s|
    ensures forall x :: x in r <==> x in s
  {
    forall x ensures x in r <==> x in s {
      assert x in multiset(s) <==> x in multiset(r);
    }
    forall i, j | 0 <= i < j < |r| ensures r[i] != r[j] {
      OnceEach(s, r[i]);
      assert r == r[..j] + r[j..] && r[i] in r[..j] && r[j] in r[j..];
      assert multiset(r)[r[i]] == multiset(r[..j])[r[i]] + multiset(r[j..])[r[i]];
    }
    assert |multiset(s)| == |s| && |multiset(r)| == |r|;
  }

  lemma OnceEach(s: seq<string>, x: string)
    requires NoRepeats(s)
    ensures multiset(s)[x] <= 1
  {
    if s != [] {
      assert s == [s[0]] + s[1..];
      OnceEach(s[1..], x);
    }
  }

  class SuRegistry {
    const timeout: int
    const clock: Clock
    var servers: map<string, ServerItem>
    /** Every registration ever made, oldest first. */
    ghost var history: seq<Registration>

    constructor (timeout: int, clock: Clock)
      ensures Valid() && this.timeout == timeout && this.clock == clock && servers == map[] && history == []
    {
      this.timeout, this.clock, servers, history := timeout, clock, map[], [];
    }

    /** A listed server carries the time of its last registration. */
    ghost predicate ItemOk(addr: string, item: ServerItem)
      reads this, clock, item
    {
      item.addr == addr && LastSeen(history, addr) == Some(item.start) && item.start <= clock.now
    }

    /** A server that registered and is not listed any more has expired. */
    ghost predicate MissingOk(addr: string)
      reads this, clock
    {
      addr in servers || !Unexpired(history, addr, timeout, clock.now)
    }

    ghost predicate Valid()
      reads this, clock, servers.Values
    {
      && (forall addr :: addr in servers ==> ItemOk(addr, servers[addr]))
      && (forall addr :: MissingOk(addr))
    }

    method PutServer(addr: string)
      requires Valid()
      modifies this`servers, this`history, clock, servers.Values
      ensures Valid()
      ensures old(clock.now) <= clock.now
      ensures history == old(history) + [Registration(addr, clock.now)]
      ensures servers.Keys == old(servers.Keys) + {addr} && servers[addr].start == clock.now
      ensures forall a :: a in old(servers) ==>
                servers[a] == old(servers[a]) && (a == addr || servers[a].start == old(servers[a].start))
      ensures addr !in old(servers) ==> fresh(servers[addr])
    {
      var t := clock.Read();
      if addr !in servers {
        var item := new ServerItem(addr, t);
        servers := servers[addr := item];
      } else {
        servers[addr].start := t;
      }
      history := history + [Registration(addr, t)];
      assert history[..|history| - 1] == old(history);
      forall a ensures MissingOk(a) {
        assert old(MissingOk(a));
      }
      forall a | a in servers ensures ItemOk(a, servers[a]) {
        if a != addr {
          assert old(ItemOk(a, servers[a]));
        }
      }
    }

    /**
     * One look at one entry, with a clock reading of its own: the entry stays when it is
     * unexpired and leaves the table otherwise.
     */
    method Visit(addr: string) returns (kept: bool)
      requires Valid() && addr in servers
      modifies this`servers, clock
      ensures Valid()
      ensures old(clock.now) <= clock.now
      ensures servers == if kept then old(servers) else old(servers) - {addr}
      ensures kept ==> Alive(servers[addr].start, timeout, old(clock.now))
      ensures !kept ==> !Alive(old(servers)[addr].start, timeout, clock.now)
    {
      ghost var before := clock.now;
      kept := timeout == 0;
      if !kept {
        var t := clock.Read();
        kept := servers[addr].start + timeout > t;
      }
      forall a ensures MissingOk(a) {
        assert old(MissingOk(a));
      }
      forall a | a in servers ensures ItemOk(a, servers[a]) {
        assert old(ItemOk(a, servers[a]));
      }
      if !kept {
        assert ItemOk(addr, servers[addr]);
        servers := servers - {addr};
        forall a ensures MissingOk(a) {
          assert old(MissingOk(a));
        }
      }
    }

    /**
     * Whatever earlier scans removed, the answer holds every server whose last registration
     * ever is unexpired when the scan ends, and none that had expired when it began.
     */
    method AliveServers() returns (alive: seq<string>)
      requires Valid()
      modifies this`servers, clock
      ensures Valid()
      ensures old(clock.now) <= clock.now
      ensures Sorted(alive) && NoRepeats(alive)
      ensures forall a :: a in alive <==> a in servers
      ensures forall a :: a in servers ==> a in old(servers) && servers[a] == old(servers[a])
      ensures forall a, t :: LastSeen(history, a) == Some(t) && (timeout == 0 || t + timeout > clock.now) ==> a in alive
      ensures forall a :: a in alive ==>
                LastSeen(history, a).Some? && (timeout == 0 || LastSeen(history, a).value + timeout > old(clock.now))
    {
      var found: seq<string> := [];
      var rest := servers.Keys;
      while rest != {}
        invariant Valid() && old(clock.now) <= clock.now
        invariant rest <= servers.Keys && servers.Keys <= old(servers).Keys
        invariant forall a :: a in servers ==> servers[a] == old(servers)[a]
        invariant NoRepeats(found)
        invariant forall a :: a in found <==> a in servers && a !in rest
        invariant forall a :: a in found ==> Alive(servers[a].start, timeout, old(clock.now))
        decreases rest
      {
        var addr :| addr in rest;
        var kept := Visit(addr);
        if kept {
          found := found + [addr];
        }
        rest := rest - {addr};
      }
      alive := Sort(found);
      SameBag(found, alive);
      forall a | a in alive ensures Unexpired(history, a, timeout, old(clock.now)) {
        assert ItemOk(a, servers[a]);
      }
      forall a | Unexpired(history, a, timeout, clock.now) ensures a in alive {
        assert MissingOk(a);
      }
    }
  }
}
