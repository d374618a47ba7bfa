/** A discovery whose list comes from a registry and is fetched again when it is too old. */
module RegistryDiscovery {
  import opened Basics
  import opened AddressList
  import opened Discovery
  import opened Registry

  const DEFAULT_UPDATE_TIMEOUT := 10_000_000_000

  function Blanks(n: nat): (b: seq<string>)
    ensures |b| == n && forall i :: 0 <= i < n ==> b[i] == ""
  {
    if n == 0 then [] else [""] + Blanks(n - 1)
  }

  /** The list made from an answer: one empty name for each piece, and then the addresses. */
  function Listed(text: string): (servers: seq<string>)
    ensures servers != []
  {
    Blanks(|Split(text)|) + Decoded(text)
  }

  class SuRegistryDiscovery {
    const multi: MultiServerDiscovery
    const timeout: int
    const clock: Clock
    var lastUpdate: int

    /** Times are counted from the zero time, which is long past. */
    constructor (timeout: int, clock: Clock, start: nat)
      requires start < 0x7FFF_FFFF - 1
      ensures multi.Valid() && fresh(multi) && multi.servers == [] && multi.index == start
      ensures this.clock == clock && lastUpdate == 0
      ensures this.timeout == if timeout == 0 then DEFAULT_UPDATE_TIMEOUT else timeout
    {
      multi := new MultiServerDiscovery([], start);
      this.timeout := if timeout == 0 then DEFAULT_UPDATE_TIMEOUT else timeout;
      this.clock, lastUpdate := clock, 0;
    }

    method Update(servers: seq<string>)
      modifies this, multi, clock
      ensures multi.Valid() && multi.servers == servers && multi.index == old(multi.index) && multi.picked == []
      ensures old(clock.now) <= lastUpdate == clock.now
    {
      multi.Update(servers);
      lastUpdate := clock.Read();
    }

    /** `reply` is what the registry would answer now, if it can be reached. */
    method Refresh(reply: Option<string>) returns (ok: bool, ghost fetched: bool)
      requires multi.Valid()
      modifies this, multi, clock
      ensures multi.Valid() && multi.index == old(multi.index)
      ensures old(clock.now) <= clock.now
      ensures fetched ==> ok && reply.Some? && multi.servers == Listed(reply.value) && multi.picked == []
      ensures fetched ==> old(lastUpdate) + timeout <= lastUpdate == clock.now
      ensures !fetched ==> multi.servers == old(multi.servers) && multi.picked == old(multi.picked)
      ensures !fetched ==> lastUpdate == old(lastUpdate) && multi.calls == old(multi.calls)
      ensures !fetched ==>
                if ok then lastUpdate + timeout > clock.now else reply.None? && lastUpdate + timeout <= clock.now
    {
      var now := clock.Read();
      if lastUpdate + timeout > now {
        return true, false;
      }
      if reply.None? {
        return false, false;
      }
      var servers := ReadAnswer(reply.value);
      multi.Update(servers);
      lastUpdate := clock.Read();
      return true, true;
    }

    method Get(mode: SelectMode, reply: Option<string>) returns (r: Result<string>, ghost fetched: bool)
      requires multi.Valid()
      modifies this, multi, clock
      ensures multi.Valid()
      ensures fetched ==> reply.Some? && multi.servers == Listed(reply.value)
      ensures !fetched ==> multi.servers == old(multi.servers)
      ensures r == Err(RefreshFailed) ==> reply.None? && multi.index == old(multi.index)
      ensures r == Err(NoServers) ==> multi.servers == [] && !fetched
      ensures r.Ok? ==> multi.servers != [] && r.value in multi.servers
      ensures r.Ok? && mode == RoundRobinSelect ==>
                var p := Position(old(multi.index), |multi.servers|);
                r.value == multi.servers[p] && multi.index == Advance(old(multi.index), |multi.servers|)
    {
      var ok;
      ok, fetched := Refresh(reply);
      if ok {
        r := multi.Get(mode);
      } else {
        r := Err(RefreshFailed);
      }
    }
  }

  lemma {:induction false} TrimmedOneMore(pieces: seq<string>, i: nat, server: string)
    requires i < |pieces| && server == TrimSpace(pieces[i])
    ensures Trimmed(pieces[..i + 1]) == if server == "" then Trimmed(pieces[..i]) else Trimmed(pieces[..i]) + [server]
  {
    assert pieces[..i + 1][..i] == pieces[..i];
  }

  method AppendTrimmed(blanks: seq<string>, pieces: seq<string>) returns (servers: seq<string>)
    ensures servers == blanks + Trimmed(pieces)
  {
    servers := blanks;
    var i := 0;
    while i < |pieces|
      invariant 0 <= i <= |pieces|
      invariant servers == blanks + Trimmed(pieces[..i])
    {
      var server := TrimSpace(pieces[i]);
      TrimmedOneMore(pieces, i, server);
      Regrouped(blanks, Trimmed(pieces[..i]), [server]);
      if server != "" {
        servers := servers + [server];
      }
      i := i + 1;
    }
    assert pieces[..|pieces|] == pieces;
  }

  method ReadAnswer(text: string) returns (servers: seq<string>)
    ensures servers == Listed(text)
  {
    var pieces := Split(text);
    servers := AppendTrimmed(Blanks(|pieces|), pieces);
  }

  /**
   * What a client makes of the registry's list: exactly the registered addresses follow one
   * empty name for each of them (one in all when there are none), so the list is never empty.
   */
  lemma {:induction false} AnswerDoubles(addrs: seq<string>)
    requires forall a :: a in addrs ==> Clean(a)
    ensures Listed(Join(addrs)) == Blanks(if addrs == [] then 1 else |addrs|) + addrs
  {
    DecodedIff(addrs);
    if addrs == [] {
      assert Split("") == [""];
    } else {
      SplitJoin(addrs);
      forall a | a in addrs ensures ',' !in a {
        assert Clean(a);
      }
    }
  }

  /** A blank name is picked exactly at the positions before the first address. */
  lemma {:induction false} BlankIff(text: string, p: nat)
    requires p < |Listed(text)|
    ensures Listed(text)[p] == "" <==> p < |Split(text)|
  {
    PiecesHoldNoComma(text);
    TrimmedAreClean(Split(text));
    if p >= |Split(text)| {
      assert Listed(text)[p] in Decoded(text);
      assert Clean(Listed(text)[p]);
    }
  }

  function BlankTurns(servers: seq<string>, picks: seq<int>): nat {
    if picks == [] then 0
    else (if 0 <= picks[0] < |servers| && servers[picks[0]] == "" then 1 else 0) + BlankTurns(servers, picks[1..])
  }

  /** Over the registry's own list of k addresses, k of any 2k turns in a row go to nobody. */
  lemma {:induction false} HalfTheTurnsAreBlank(addrs: seq<string>, servers: seq<string>, index: nat,
                                                    modes: seq<SelectMode>)
    requires addrs != [] && forall a :: a in addrs ==> Clean(a)
    requires servers == Listed(Join(addrs)) && servers != []
    requires |Picks(index, |servers|, modes)| == |servers|
    ensures |servers| == 2 * |addrs| && BlankTurns(servers, Picks(index, |servers|, modes)) == |addrs|
  {
    AnswerDoubles(addrs);
    var picks := Picks(index, |servers|, modes);
    forall p: nat | p < |servers| ensures multiset(picks)[p] == 1 {
      OncePerRound(index, |servers|, modes, p);
    }
    forall p: nat | p < |servers| ensures servers[p] == "" <==> p < |addrs| {
      assert p >= |addrs| ==> servers[p] in addrs;
    }
    BlankTurnsBelow(servers, picks, |addrs|);
    EachOnceBelow(picks, |addrs|);
  }

  function Below(picks: seq<int>, k: int): nat {
    if picks == [] then 0 else (if 0 <= picks[0] < k then 1 else 0) + Below(picks[1..], k)
  }

  lemma {:induction false} BlankTurnsBelow(servers: seq<string>, picks: seq<int>, k: nat)
    requires k <= |servers| && forall p :: 0 <= p < |servers| ==> (servers[p] == "" <==> p < k)
    ensures BlankTurns(servers, picks) == Below(picks, k)
  {
    if picks != [] {
      BlankTurnsBelow(servers, picks[1..], k);
    }
  }

  lemma {:induction false} EachOnceBelow(picks: seq<int>, k: nat)
    requires forall p :: 0 <= p < k ==> multiset(picks)[p] == 1
    ensures Below(picks, k) == k
  {
    if k == 0 {
      NoneBelow(picks);
    } else {
      EachOnceBelow(picks, k - 1);
      OneMoreBelow(picks, k - 1);
    }
  }

  lemma {:induction false} NoneBelow(picks: seq<int>)
    ensures Below(picks, 0) == 0
  {
    if picks != [] {
      NoneBelow(picks[1..]);
    }
  }

  lemma {:induction false} OneMoreBelow(picks: seq<int>, k: nat)
    ensures Below(picks, k + 1) == Below(picks, k) + multiset(picks)[k]
  {
    if picks != [] {
      OneMoreBelow(picks[1..], k);
      assert picks == [picks[0]] + picks[1..];
    }
  }
}
