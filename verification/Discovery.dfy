/** A client's list of servers and the round-robin turn it keeps. */
module Discovery {

  datatype SelectMode = RandomSelect | RoundRobinSelect | OtherMode(code: int)
  datatype Error = NoServers | ModeNotSupported | RefreshFailed
  datatype Result<T> = Ok(value: T) | Err(error: Error)

  function Position(index: nat, n: nat): (p: nat)
    requires n > 0
    ensures p < n
  {
    index % n
  }

  function Advance(index: nat, n: nat): (next: nat)
    requires n > 0
    ensures next < n
  {
    (index + 1) % n
  }

  /**
   * The positions picked by the round-robin calls among `modes`, in order, over a list of
   * `n` servers that is not updated meanwhile.
   */
  function Picks(index: nat, n: nat, modes: seq<SelectMode>): (picks: seq<int>)
    requires n > 0
    ensures |picks| <= |modes| && forall p :: p in picks ==> 0 <= p < n
    decreases |modes|
  {
    if modes == [] then []
    else if modes[0] == RoundRobinSelect then [Position(index, n)] + Picks(Advance(index, n), n, modes[1..])
    else Picks(index, n, modes[1..])
  }

  /** The j-th pick is the server j places behind the first turn, around the list. */
  lemma {:induction false} PickAt(index: nat, n: nat, modes: seq<SelectMode>, j: nat)
    requires n > 0 && j < |Picks(index, n, modes)|
    ensures Picks(index, n, modes)[j] == (index + j) % n
    decreases |modes|
  {
    if modes[0] != RoundRobinSelect {
      PickAt(index, n, modes[1..], j);
    } else if j > 0 {
      PickAt(Advance(index, n), n, modes[1..], j - 1);
      AroundOnce(index + 1, j - 1, n);
    }
  }

  lemma AroundOnce(a: nat, b: nat, n: nat)
    requires n > 0
    ensures (a % n + b) % n == (a + b) % n
  {
    var q, r := (a % n + b) / n, (a % n + b) % n;
    assert a + b == (a / n + q) * n + r;
    Divided(a + b, n, a / n + q, r);
  }

  /** The turn after `modes`. */
  function Turn(index: nat, n: nat, modes: seq<SelectMode>): nat
    requires n > 0
    decreases |modes|
  {
    if modes == [] then index
    else Turn(if modes[0] == RoundRobinSelect then Advance(index, n) else index, n, modes[1..])
  }

  lemma {:induction false} OneMoreCall(index: nat, n: nat, modes: seq<SelectMode>, mode: SelectMode)
    requires n > 0
    ensures var turn := Turn(index, n, modes);
            if mode == RoundRobinSelect
            then Picks(index, n, modes + [mode]) == Picks(index, n, modes) + [Position(turn, n)] &&
                 Turn(index, n, modes + [mode]) == Advance(turn, n)
            else Picks(index, n, modes + [mode]) == Picks(index, n, modes) &&
                 Turn(index, n, modes + [mode]) == turn
    decreases |modes|
  {
    if modes == [] {
      assert [mode][1..] == [];
    } else {
      assert (modes + [mode])[1..] == modes[1..] + [mode];
      OneMoreCall(if modes[0] == RoundRobinSelect then Advance(index, n) else index, n, modes[1..], mode);
    }
  }

  /** The number of turns between the one at `index` and the next one of position `p`. */
  function Distance(index: nat, n: nat, p: nat): (d: nat)
    requires p < n
    ensures d < n
  {
    var s := Position(index, n);
    if s <= p then p - s else p - s + n
  }

  lemma AdvanceTurns(index: nat, n: nat)
    requires n > 0
    ensures Advance(index, n) == if Position(index, n) + 1 == n then 0 else Position(index, n) + 1
    ensures Position(Advance(index, n), n) == Advance(index, n)
  {
    var q, s := index / n, index % n;
    assert index == q * n + s;
    if s + 1 == n {
      assert index + 1 == (q + 1) * n + 0;
      Divided(index + 1, n, q + 1, 0);
    } else {
      Divided(index + 1, n, q, s + 1);
    }
    Divided(Advance(index, n), n, 0, Advance(index, n));
  }

  lemma Divided(a: nat, n: nat, q: nat, s: nat)
    requires a == q * n + s && s < n
    ensures a / n == q && a % n == s
  {
    var k := a / n - q;
    assert a % n == s - k * n by {
      assert a == (a / n) * n + a % n;
      assert (a / n) * n == q * n + k * n;
    }
    assert k >= 1 ==> k * n >= n;
    assert k <= -1 ==> k * n <= -1 * n;
  }

  lemma DistanceShrinks(index: nat, n: nat, p: nat)
    requires p < n
    ensures var d := Distance(index, n, p);
            Distance(Advance(index, n), n, p) == if d == 0 then n - 1 else d - 1
    ensures Distance(index, n, p) == 0 <==> Position(index, n) == p
  {
    AdvanceTurns(index, n);
  }

  lemma OneTurnMore(m: nat, n: nat, d: nat, next: nat)
    requires d < n && next == if d == 0 then n - 1 else d - 1
    ensures (m + 1 + n - 1 - d) / n == (if d == 0 then 1 else 0) + (m + n - 1 - next) / n
  {
    if d == 0 {
      var q, s := m / n, m % n;
      assert m + n == (q + 1) * n + s;
      Divided(m + n, n, q + 1, s);
    }
  }

  /** The exact number of times a position is picked, whatever the first turn is. */
  lemma {:induction false} TurnsOf(index: nat, n: nat, modes: seq<SelectMode>, p: nat)
    requires p < n
    ensures multiset(Picks(index, n, modes))[p] == (|Picks(index, n, modes)| + n - 1 - Distance(index, n, p)) / n
    decreases |modes|
  {
    if modes == [] {
      var d := Distance(index, n, p);
      Divided(n - 1 - d, n, 0, n - 1 - d);
    } else if modes[0] != RoundRobinSelect {
      TurnsOf(index, n, modes[1..], p);
    } else {
      var next := Advance(index, n);
      DistanceShrinks(index, n, p);
      TurnsOf(next, n, modes[1..], p);
      OneTurnMore(|Picks(next, n, modes[1..])|, n, Distance(index, n, p), Distance(next, n, p));
    }
  }

  /** Of m consecutive turns over n servers each one gets m / n, rounded down or up. */
  lemma {:induction false} Fair(index: nat, n: nat, modes: seq<SelectMode>, p: nat)
    requires p < n
    ensures var picks := Picks(index, n, modes);
            |picks| / n <= multiset(picks)[p] <= (|picks| + n - 1) / n
  {
    TurnsOf(index, n, modes, p);
    var m := |Picks(index, n, modes)|;
    var d := Distance(index, n, p);
    QuotientGrows(m, m + n - 1 - d, n);
    QuotientGrows(m + n - 1 - d, m + n - 1, n);
  }

  lemma QuotientGrows(a: nat, b: nat, n: nat)
    requires a <= b && n > 0
    ensures a / n <= b / n
  {
    var qa, qb := a / n, b / n;
    assert qa > qb ==> qa * n >= (qb + 1) * n;
  }

  /** A whole round picks every server exactly once. */
  lemma {:induction false} OncePerRound(index: nat, n: nat, modes: seq<SelectMode>, p: nat)
    requires p < n && |Picks(index, n, modes)| == n
    ensures multiset(Picks(index, n, modes))[p] == 1
  {
    TurnsOf(index, n, modes, p);
    var d := Distance(index, n, p);
    Divided(n + n - 1 - d, n, 1, n - 1 - d);
  }

  class MultiServerDiscovery {
    var servers: seq<string>
    var index: nat
    /** Since the last update: the turn then, the calls made, the positions picked round-robin. */
    ghost var start: nat
    ghost var calls: seq<SelectMode>
    ghost var picked: seq<int>

    ghost predicate Valid()
      reads this
    {
      if servers == [] then picked == []
      else picked == Picks(start, |servers|, calls) && index == Turn(start, |servers|, calls)
    }

    /** The first turn is random. */
    constructor (servers: seq<string>, start: nat)
      requires start < 0x7FFF_FFFF - 1
      ensures Valid() && this.servers == servers && index == start && picked == []
    {
      this.servers, index, this.start, calls, picked := servers, start, start, [], [];
    }

    method Update(servers: seq<string>)
      modifies this
      ensures Valid() && this.servers == servers && index == old(index) && picked == []
    {
      this.servers := servers;
      start, calls, picked := index, [], [];
    }

    method Get(mode: SelectMode) returns (r: Result<string>)
      requires Valid()
      modifies this`index, this`calls, this`picked
      ensures Valid()
      ensures r == Err(NoServers) <==> servers == []
      ensures r == Err(ModeNotSupported) <==> servers != [] && mode.OtherMode?
      ensures r.Ok? ==> servers != [] && r.value in servers
      ensures r != Err(RefreshFailed)
      ensures if r.Ok? && mode == RoundRobinSelect
              then r.value == servers[Position(old(index), |servers|)] &&
                   picked == old(picked) + [Position(old(index), |servers|)] && index == Advance(old(index), |servers|)
              else index == old(index) && picked == old(picked)
      ensures calls == if servers == [] then old(calls) else old(calls) + [mode]
    {
      var length := |servers|;
      if length == 0 {
        return Err(NoServers);
      }
      OneMoreCall(start, length, calls, mode);
      calls := calls + [mode];
      match mode
      case RandomSelect =>
        var k: nat :| k < length;
        r := Ok(servers[k]);
      case RoundRobinSelect =>
        r := Ok(servers[index % length]);
        picked := picked + [index % length];
        index := (index + 1) % length;
      case OtherMode(_) =>
        r := Err(ModeNotSupported);
    }

    method GetAll() returns (all: seq<string>)
      ensures all == servers
    {
      all := servers;
    }

    /** Since the last update no server has had more than its share of the turns, or less. */
    lemma FairSoFar(p: nat)
      requires Valid() && p < |servers|
      ensures |picked| / |servers| <= multiset(picked)[p] <= (|picked| + |servers| - 1) / |servers|
    {
      Fair(start, |servers|, calls, p);
    }
  }
}
