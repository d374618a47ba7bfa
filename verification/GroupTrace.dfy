/** In every interleaving of `Get`s the cache is that of a plain trace of read-through accesses, one
    after another; and when the `Get`s themselves come one after another, it is the trace of their keys. */
module GroupTrace {
  import opened Basics
  import R = Recency
  import SF = SingleFlight
  import opened GroupGet

  // ---------------------------------------------------------------------------------
  // Any interleaving

  /** The access that a step completes: a hit, a load that is put into the cache, or one that failed. */
  function AccessOf(s: State, step: Step): seq<string>
    requires Enabled(s, step)
  {
    match step
    case Check(t) => if R.Has(s.lru, Key(s, t)) then [Key(s, t)] else []
    case Populate(t) => [Key(s, t)]
    case Fetch(t, out) => if out.err != SF.NoError then [Key(s, t)] else []
    case _ => []
  }

  function Accesses(max: nat, steps: seq<Step>): seq<string>
    requires Exec(max, steps).Some?
  {
    if steps == [] then []
    else
      var before := steps[..|steps| - 1];
      Accesses(max, before) + AccessOf(Exec(max, before).value, steps[|steps| - 1])
  }

  /** The getter answers as the source does. */
  predicate Answers(s: State, step: Step, src: R.Source)
    requires Enabled(s, step)
  {
    step.Fetch? ==> src(Key(s, step.t)) == if step.out.err == SF.NoError then Some(step.out.val) else None
  }

  predicate AllAnswer(max: nat, steps: seq<Step>, src: R.Source)
    requires Exec(max, steps).Some?
  {
    steps == [] ||
    var before := steps[..|steps| - 1];
    AllAnswer(max, before, src) && Answers(Exec(max, before).value, steps[|steps| - 1], src)
  }

  ghost predicate HoldsSource(s: State, src: R.Source) {
    forall t :: InFn(s, t) && s.fns[t].Holding? ==> src(Key(s, t)) == Some(s.fns[t].value)
  }

  lemma HoldsSourceFlight(s: State, f: SF.Step, src: R.Source)
    requires Inv(s) && HoldsSource(s, src) && Enabled(s, Flight(f))
    ensures HoldsSource(Apply(s, Flight(f)), src)
  {
    forall t | InFn(Apply(s, Flight(f)), t) && Apply(s, Flight(f)).fns[t].Holding?
      ensures t in s.fns && Apply(s, Flight(f)).fns[t] == s.fns[t]
      ensures InFn(s, t) && Key(Apply(s, Flight(f)), t) == Key(s, t)
    {
      assert t in s.fns ==> FnOk(s, t);
    }
  }

  lemma HoldsSourceStep(s: State, step: Step, src: R.Source)
    requires Inv(s) && HoldsSource(s, src) && Enabled(s, step) && Answers(s, step, src)
    ensures HoldsSource(Apply(s, step), src)
  {
    match step
    case Flight(f) => HoldsSourceFlight(s, f, src);
    case Check(_) =>
    case Pick(_, _) =>
    case Ask(_, _) =>
    case Fetch(_, _) =>
    case Populate(_) =>
  }

  /** One step does to the cache what the accesses it completes do. */
  lemma StepIsAccess(s: State, step: Step, src: R.Source)
    requires Inv(s) && HoldsSource(s, src) && Enabled(s, step) && Answers(s, step, src)
    ensures var access := AccessOf(s, step);
            Apply(s, step).lru == if access == [] then s.lru else R.Access(s.lru, src, s.max, access[0])
    ensures Apply(s, step).max == s.max
  {
    match step
    case Flight(_) =>
    case Check(_) =>
    case Pick(_, _) =>
    case Ask(_, _) =>
    case Fetch(t, _) => assert FnOk(s, t);
    case Populate(t) => assert FnOk(s, t);
  }

  lemma {:induction false} TraceHolds(max: nat, steps: seq<Step>, src: R.Source)
    requires Exec(max, steps).Some? && AllAnswer(max, steps, src)
    ensures HoldsSource(Exec(max, steps).value, src)
    ensures Exec(max, steps).value.lru == R.Content(src, max, Accesses(max, steps))
  {
    if steps != [] {
      var before, step := steps[..|steps| - 1], steps[|steps| - 1];
      var s := Exec(max, before).value;
      InvHolds(max, before);
      TraceHolds(max, before, src);
      HoldsSourceStep(s, step, src);
      StepIsAccess(s, step, src);
      ContentGrows(src, max, Accesses(max, before), AccessOf(s, step));
    }
  }

  lemma {:induction false} ContentGrows(src: R.Source, max: nat, trace: seq<string>, access: seq<string>)
    requires |access| <= 1
    ensures R.Content(src, max, trace + access) ==
            if access == [] then R.Content(src, max, trace)
            else R.Access(R.Content(src, max, trace), src, max, access[0])
  {
    if access == [] {
      assert trace + access == trace;
    } else {
      assert (trace + access)[..|trace|] == trace;
    }
  }

  /** Whatever the interleaving: the cache is what the accesses leave behind that hit it or load into
      it, in the order in which they do; so it is the longest fitting prefix of their keys, the latest
      first. */
  lemma CacheIsOfATrace(max: nat, steps: seq<Step>, src: R.Source)
    requires Exec(max, steps).Some? && AllAnswer(max, steps, src)
    ensures var s, trace := Exec(max, steps).value, Accesses(max, steps);
            s.lru == R.Content(src, max, trace) && R.LongestFitting(R.Recent(src, trace), s.lru, max)
  {
    TraceHolds(max, steps, src);
    R.StackProperty(src, max, Accesses(max, steps));
  }

  // ---------------------------------------------------------------------------------
  // One `Get` after another

  predicate AllReturned(s: State) {
    forall t :: 0 <= t < |s.flight.threads| ==> s.flight.threads[t].pc.Returned?
  }

  /** Every `Get` starts when those before it have returned, and `PickPeer` declines every key. */
  predicate OneByOne(max: nat, steps: seq<Step>)
    requires Exec(max, steps).Some?
  {
    steps == [] ||
    var before, step := steps[..|steps| - 1], steps[|steps| - 1];
    && OneByOne(max, before)
    && (step.Flight? && step.step.Start? ==> AllReturned(Exec(max, before).value))
    && (step.Pick? ==> !step.remote)
  }

  function Keys(threads: seq<SF.Thread>): (keys: seq<string>)
    ensures |keys| == |threads|
  {
    seq(|threads|, i requires 0 <= i < |threads| => threads[i].key)
  }

  /** The `Get` of thread `t` has made its access. */
  predicate HasAccessed(s: State, t: nat)
    requires t < |s.flight.threads|
  {
    var pc := s.flight.threads[t].pc;
    || pc.Storing? || pc.HalfStored? || pc.Signalling? || pc.Deleting? || pc.Leaving? || pc.Returned?
    || (pc.InFn? && t in s.fns && s.fns[t].Done?)
  }

  /** Only the last `Get` is under way, and the accesses so far are those of the ones before it, and
      its own when it has made it. */
  ghost predicate InTurn(s: State, trace: seq<string>) {
    var n := |s.flight.threads|;
    && (forall t :: 0 <= t < n - 1 ==> s.flight.threads[t].pc.Returned?)
    && (n > 0 ==> !s.flight.threads[n - 1].pc.Waiting? && (n - 1 in s.fns ==> !s.fns[n - 1].Remote?))
    && trace == Keys(s.flight.threads)[..if n == 0 || HasAccessed(s, n - 1) then n else n - 1]
  }

  /** While only the last `Get` is under way, no call is in the table when it enters. */
  lemma NothingToJoin(f: SF.State, t: nat)
    requires SF.Inv(f) && t < |f.threads| && f.threads[t].pc.Entering?
    requires forall u :: 0 <= u < |f.threads| && u != t ==> f.threads[u].pc.Returned?
    ensures f.threads[t].key !in f.m
  {
    assert f.threads[t].key in f.m ==> SF.EntryOk(f, f.threads[t].key);
  }

  lemma StartInTurn(s: State, key: string, trace: seq<string>)
    requires Inv(s) && InTurn(s, trace) && AllReturned(s)
    ensures InTurn(Apply(s, Flight(SF.Start(key))), trace)
  {
    var n, threads' := |s.flight.threads|, Apply(s, Flight(SF.Start(key))).flight.threads;
    assert Keys(threads')[..n] == Keys(s.flight.threads);
  }

  /** The last `Get` moves on outside `fn`. */
  lemma FlightInTurn(s: State, f: SF.Step, trace: seq<string>)
    requires Inv(s) && InTurn(s, trace) && Enabled(s, Flight(f)) && !f.Start?
    ensures InTurn(Apply(s, Flight(f)), trace)
  {
    LastMoves(s, f, trace);
    if f.Enter? {
      NothingToJoin(s.flight, f.t);
    }
    FlightAccesses(s, f);
  }

  lemma LastMoves(s: State, f: SF.Step, trace: seq<string>)
    requires Inv(s) && InTurn(s, trace) && Enabled(s, Flight(f)) && !f.Start?
    ensures f.t == |s.flight.threads| - 1 == |Apply(s, Flight(f)).flight.threads| - 1
    ensures forall u :: 0 <= u < f.t ==> Apply(s, Flight(f)).flight.threads[u] == s.flight.threads[u]
    ensures Keys(Apply(s, Flight(f)).flight.threads) == Keys(s.flight.threads)
  {
    match f
    case Enter(_) =>
    case Wake(_) =>
    case Begin(_) =>
    case Finish(_, _) =>
    case StoreVal(_) =>
    case StoreErr(_) =>
    case Release(_) =>
    case Delete(_) =>
    case Return(_) =>
  }

  /** No step outside `fn` makes an access, or takes one back. */
  lemma FlightAccesses(s: State, f: SF.Step)
    requires Inv(s) && Enabled(s, Flight(f)) && !f.Start?
    requires f.Enter? ==> s.flight.threads[f.t].key !in s.flight.m
    requires !s.flight.threads[f.t].pc.Waiting? && (f.t in s.fns ==> !s.fns[f.t].Remote?)
    ensures var s' := Apply(s, Flight(f));
            && f.t < |s'.flight.threads| && (HasAccessed(s', f.t) <==> HasAccessed(s, f.t))
            && !s'.flight.threads[f.t].pc.Waiting? && (f.t in s'.fns ==> !s'.fns[f.t].Remote?)
  {
    match f
    case Enter(_) =>
    case Begin(_) =>
    case Finish(_, _) =>
    case StoreVal(_) =>
    case StoreErr(_) =>
    case Release(_) =>
    case Delete(_) =>
    case Return(_) =>
  }

  /** A step inside `fn` makes the access of its `Get`, if it makes one. */
  lemma FnAccesses(s: State, step: Step)
    requires Inv(s) && Enabled(s, step) && !step.Flight? && (step.Pick? ==> !step.remote)
    requires step.t in s.fns ==> !s.fns[step.t].Remote?
    ensures var s' := Apply(s, step);
            && s'.flight == s.flight && step.t < |s.flight.threads| && s.flight.threads[step.t].pc.InFn?
            && !HasAccessed(s, step.t) && (step.t in s'.fns ==> !s'.fns[step.t].Remote?)
            && AccessOf(s, step) == if HasAccessed(s', step.t) then [s.flight.threads[step.t].key] else []
  {
    assert FnOk(s, step.t);
    match step
    case Check(_) =>
    case Pick(_, _) =>
    case Fetch(_, _) =>
    case Populate(_) =>
  }

  lemma FnInTurn(s: State, step: Step, trace: seq<string>)
    requires Inv(s) && InTurn(s, trace) && Enabled(s, step) && !step.Flight? && (step.Pick? ==> !step.remote)
    ensures InTurn(Apply(s, step), trace + AccessOf(s, step))
  {
    var n := |s.flight.threads|;
    assert FnOk(s, step.t);
    assert step.t == n - 1;
    FnAccesses(s, step);
    var keys := Keys(s.flight.threads);
    assert keys[..n - 1] + [keys[n - 1]] == keys == keys[..n];
  }

  lemma {:induction false} InTurnHolds(max: nat, steps: seq<Step>)
    requires Exec(max, steps).Some? && OneByOne(max, steps)
    ensures InTurn(Exec(max, steps).value, Accesses(max, steps))
  {
    if steps != [] {
      var before, step := steps[..|steps| - 1], steps[|steps| - 1];
      InvHolds(max, before);
      InTurnHolds(max, before);
      if step.Flight? {
        if step.step.Start? {
          StartInTurn(Exec(max, before).value, step.step.key, Accesses(max, before));
        } else {
          FlightInTurn(Exec(max, before).value, step.step, Accesses(max, before));
        }
        assert Accesses(max, steps) == Accesses(max, before);
      } else {
        FnInTurn(Exec(max, before).value, step, Accesses(max, before));
      }
    }
  }

  /** `Get`s of owned keys one after another leave the cache of the trace of their keys. */
  lemma GetsOneByOne(max: nat, steps: seq<Step>, src: R.Source)
    requires Exec(max, steps).Some? && AllAnswer(max, steps, src) && OneByOne(max, steps)
    requires AllReturned(Exec(max, steps).value)
    ensures var s := Exec(max, steps).value; s.lru == R.Content(src, max, Keys(s.flight.threads))
  {
    InTurnHolds(max, steps);
    TraceHolds(max, steps, src);
    var s := Exec(max, steps).value;
    assert Keys(s.flight.threads)[..|s.flight.threads|] == Keys(s.flight.threads);
  }
}
