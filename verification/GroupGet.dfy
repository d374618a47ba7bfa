/** `Group.Get` under concurrency: every `Get` is a `singleflight.Do` whose `fn` looks into the
    cache, asks the picked peer or the local source, and writes the cache. The machine adds the
    steps inside `fn` to module `SingleFlight`; one cache operation under its mutex is one step. */
module GroupGet {
  import opened Basics
  import R = Recency
  import SF = SingleFlight

  type Outcome = SF.Outcome

  /** Where a leader is inside `fn`. `Holding` is between the source's answer and `populateCache`. */
  datatype FnPc =
    | Checking
    | Missed
    | Remote
    | Local
    | Holding(value: Bytes)
    | Done(out: Outcome)

  /** `loads` and `evicted` count successful runs of the getter and evictions by key; `fetched` and
      `received` record the values that came from the getter and from peers, `failures` the errors
      that either gave. They only observe. */
  datatype State = State(
    flight: SF.State, fns: map<nat, FnPc>, lru: seq<R.Pair>, max: nat,
    loads: multiset<string>, evicted: multiset<string>,
    fetched: set<(string, Bytes)>, received: set<(string, Bytes)>, failures: set<(string, SF.Error)>)

  function Init(max: nat): State {
    State(SF.INIT, map[], [], max, multiset{}, multiset{}, {}, {}, {})
  }

  datatype Step =
    | Flight(step: SF.Step)
    | Check(t: nat)
    | Pick(t: nat, remote: bool)
    | Ask(t: nat, out: Outcome)
    | Fetch(t: nat, out: Outcome)
    | Populate(t: nat)

  predicate InFn(s: State, t: nat) {
    t < |s.flight.threads| && t in s.fns
  }

  function Key(s: State, t: nat): string
    requires InFn(s, t)
  {
    s.flight.threads[t].key
  }

  predicate Enabled(s: State, step: Step) {
    match step
    case Flight(f) =>
      && SF.Enabled(s.flight, f)
      && (f.Finish? ==> InFn(s, f.t) && s.fns[f.t] == Done(f.out))
    case Check(t) => InFn(s, t) && s.fns[t].Checking?
    case Pick(t, _) => InFn(s, t) && s.fns[t].Missed?
    case Ask(t, _) => InFn(s, t) && s.fns[t].Remote?
    case Fetch(t, _) => InFn(s, t) && s.fns[t].Local?
    case Populate(t) => InFn(s, t) && s.fns[t].Holding?
  }

  /** What a failing `load` returns: the zero view and the error. */
  function Failed(err: SF.Error): Outcome {
    SF.Outcome([], err)
  }

  function Apply(s: State, step: Step): State
    requires Enabled(s, step)
  {
    match step
    case Flight(f) =>
      var fns := if f.Begin? then s.fns[f.t := Checking] else if f.Finish? then s.fns - {f.t} else s.fns;
      s.(flight := SF.Apply(s.flight, f), fns := fns)
    case Check(t) =>
      var i := R.IndexOf(s.lru, Key(s, t));
      if i < |s.lru| then
        s.(fns := s.fns[t := Done(SF.Outcome(s.lru[i].value, SF.NoError))], lru := R.Get(s.lru, Key(s, t)))
      else s.(fns := s.fns[t := Missed])
    case Pick(t, remote) => s.(fns := s.fns[t := if remote then Remote else Local])
    case Ask(t, out) =>
      if out.err != SF.NoError then
        s.(fns := s.fns[t := Done(Failed(out.err))], failures := s.failures + {(Key(s, t), out.err)})
      else s.(fns := s.fns[t := Done(out)], received := s.received + {(Key(s, t), out.val)})
    case Fetch(t, out) =>
      if out.err != SF.NoError then
        s.(fns := s.fns[t := Done(Failed(out.err))], failures := s.failures + {(Key(s, t), out.err)})
      else s.(fns := s.fns[t := Holding(out.val)],
              loads := s.loads + multiset{Key(s, t)},
              fetched := s.fetched + {(Key(s, t), out.val)})
    case Populate(t) =>
      var v := s.fns[t].value;
      s.(fns := s.fns[t := Done(SF.Outcome(v, SF.NoError))],
         lru := R.Add(s.lru, Key(s, t), v, s.max),
         evicted := s.evicted + KeyBag(R.Evicted(s.lru, Key(s, t), v, s.max)))
  }

  function Exec(max: nat, steps: seq<Step>): Option<State> {
    if steps == [] then Some(Init(max))
    else match Exec(max, steps[..|steps| - 1])
      case None => None
      case Some(s) =>
        var step := steps[|steps| - 1];
        if Enabled(s, step) then Some(Apply(s, step)) else None
  }

  function KeyBag(es: seq<R.Pair>): multiset<string> {
    if es == [] then multiset{} else multiset{es[0].key} + KeyBag(es[1..])
  }

  lemma KeyBagConcat(a: seq<R.Pair>, b: seq<R.Pair>)
    ensures KeyBag(a + b) == KeyBag(a) + KeyBag(b)
  {
    if a == [] {
      assert a + b == b;
    } else {
      assert (a + b)[1..] == a[1..] + b;
      KeyBagConcat(a[1..], b);
    }
  }

  lemma KeyBagHas(es: seq<R.Pair>, k: string)
    requires R.DistinctKeys(es)
    ensures KeyBag(es)[k] == if R.Has(es, k) then 1 else 0
  {
    if es != [] {
      KeyBagHas(es[1..], k);
    }
  }

  lemma {:induction false} KeyBagGet(es: seq<R.Pair>, k: string)
    ensures KeyBag(R.Get(es, k)) == KeyBag(es)
  {
    var i := R.IndexOf(es, k);
    if i < |es| {
      KeyBagRemoveAt(es, i);
      KeyBagConcat([es[i]], RemoveAt(es, i));
    }
  }

  lemma {:induction false} KeyBagRemoveAt(es: seq<R.Pair>, i: nat)
    requires i < |es|
    ensures KeyBag(es) == multiset{es[i].key} + KeyBag(RemoveAt(es, i))
  {
    var a, e, b := es[..i], [es[i]], es[i + 1..];
    assert es == a + (e + b);
    KeyBagConcat(a, e + b);
    KeyBagConcat(e, b);
    KeyBagConcat(a, b);
  }

  /** Adding an uncached key: what is in the cache and what is evicted are the old keys and the new one. */
  lemma {:induction false} KeyBagAdd(es: seq<R.Pair>, k: string, v: Bytes, max: nat)
    requires R.DistinctKeys(es) && !R.Has(es, k)
    ensures KeyBag(R.Add(es, k, v, max)) + KeyBag(R.Evicted(es, k, v, max)) == KeyBag(es) + multiset{k}
    ensures R.DistinctKeys(R.Add(es, k, v, max))
  {
    R.FrontDistinct(es, k, v);
    var front := R.Front(es, k, v);
    KeyBagConcat(R.Add(es, k, v, max), R.Evicted(es, k, v, max));
    assert R.Add(es, k, v, max) + R.Evicted(es, k, v, max) == front;
    KeyBagConcat([R.Pair(k, v)], es);
  }

  // ---------------------------------------------------------------------------------
  // Counting loads

  predicate Holds(s: State, t: nat, k: string) {
    InFn(s, t) && s.fns[t].Holding? && Key(s, t) == k
  }

  ghost predicate Held(s: State, k: string) {
    exists t :: Holds(s, t, k)
  }

  /** Successful runs of the getter for `k` = evictions of `k` + 1 if it is cached
      + 1 if a leader has the value and has not added it yet. */
  ghost predicate CountOk(s: State, k: string) {
    s.loads[k] == s.evicted[k] + KeyBag(s.lru)[k] + if Held(s, k) then 1 else 0
  }

  ghost predicate FnOk(s: State, t: nat)
    requires t in s.fns
  {
    && t < |s.flight.threads| && s.flight.threads[t].pc.InFn?
    && (!s.fns[t].Checking? && !s.fns[t].Done? ==> !R.Has(s.lru, Key(s, t)))
  }

  ghost predicate Inv(s: State) {
    && SF.Inv(s.flight)
    && R.DistinctKeys(s.lru)
    && (forall t :: t in s.fns ==> FnOk(s, t))
    && (forall t :: 0 <= t < |s.flight.threads| && s.flight.threads[t].pc.InFn? ==> t in s.fns)
    && (forall k :: CountOk(s, k))
  }

  lemma OneLeader(s: State, t: nat, u: nat)
    requires Inv(s) && InFn(s, t) && InFn(s, u) && Key(s, t) == Key(s, u)
    ensures t == u
  {
    assert FnOk(s, t) && FnOk(s, u);
    assert SF.ThreadOk(s.flight, t) && SF.ThreadOk(s.flight, u);
  }

  lemma InvFlight(s: State, f: SF.Step)
    requires Inv(s) && Enabled(s, Flight(f))
    ensures Inv(Apply(s, Flight(f)))
  {
    var s' := Apply(s, Flight(f));
    SF.InvStep(s.flight, f);
    forall t | t in s'.fns
      ensures FnOk(s', t)
    {
      assert t in s.fns ==> FnOk(s, t);
    }
    forall k
      ensures CountOk(s', k)
    {
      assert CountOk(s, k);
      forall t
        ensures Holds(s', t, k) == Holds(s, t, k)
      {
      }
    }
  }

  /** The steps that leave the cache and the counters alone. */
  lemma InvQuiet(s: State, step: Step)
    requires Inv(s) && Enabled(s, step)
    requires step.Pick? || step.Ask? || (step.Fetch? && step.out.err != SF.NoError)
    ensures Inv(Apply(s, step))
  {
    var s' := Apply(s, step);
    forall t | t in s'.fns
      ensures FnOk(s', t)
    {
      assert FnOk(s, t);
    }
    forall k
      ensures CountOk(s', k)
    {
      assert CountOk(s, k);
      forall t
        ensures Holds(s', t, k) == Holds(s, t, k)
      {
      }
    }
  }

  lemma InvCheck(s: State, t: nat)
    requires Inv(s) && Enabled(s, Check(t))
    ensures Inv(Apply(s, Check(t)))
  {
    var s', key := Apply(s, Check(t)), Key(s, t);
    KeyBagGet(s.lru, key);
    if R.Has(s.lru, key) {
      R.FrontDistinct(s.lru, key, s.lru[R.IndexOf(s.lru, key)].value);
    }
    forall u | u in s'.fns
      ensures FnOk(s', u)
    {
      assert FnOk(s, u);
      KeyBagHas(s.lru, Key(s, u));
      KeyBagHas(s'.lru, Key(s, u));
    }
    forall k
      ensures CountOk(s', k)
    {
      assert CountOk(s, k);
      forall u
        ensures Holds(s', u, k) == Holds(s, u, k)
      {
      }
    }
  }

  lemma InvFetch(s: State, t: nat, out: Outcome)
    requires Inv(s) && Enabled(s, Fetch(t, out)) && out.err == SF.NoError
    ensures Inv(Apply(s, Fetch(t, out)))
  {
    var s', key := Apply(s, Fetch(t, out)), Key(s, t);
    forall u | u in s'.fns
      ensures FnOk(s', u)
    {
      assert FnOk(s, u);
    }
    forall k
      ensures CountOk(s', k)
    {
      assert CountOk(s, k);
      forall u | u != t
        ensures Holds(s', u, k) == Holds(s, u, k)
      {
      }
      if k == key {
        assert Holds(s', t, k);
        forall u
          ensures !Holds(s, u, k)
        {
          if Holds(s, u, k) {
            OneLeader(s, t, u);
          }
        }
      }
    }
  }

  /** `Populate` releases the one holder of its key. */
  lemma HeldAfterPopulate(s: State, t: nat, k: string)
    requires Inv(s) && Enabled(s, Populate(t))
    ensures k == Key(s, t) ==> Held(s, k) && !Held(Apply(s, Populate(t)), k)
    ensures k != Key(s, t) ==> Held(s, k) == Held(Apply(s, Populate(t)), k)
  {
    var s' := Apply(s, Populate(t));
    assert Holds(s, t, Key(s, t));
    forall u
      ensures Holds(s', u, k) == (Holds(s, u, k) && u != t)
    {
    }
    forall u | Holds(s, u, k)
      ensures k == Key(s, t) ==> u == t
    {
      if k == Key(s, t) {
        OneLeader(s, t, u);
      }
    }
  }

  lemma FnOkAfterPopulate(s: State, t: nat, u: nat)
    requires Inv(s) && Enabled(s, Populate(t)) && u in s.fns && !R.Has(s.lru, Key(s, t))
    ensures FnOk(Apply(s, Populate(t)), u)
  {
    var s' := Apply(s, Populate(t));
    assert FnOk(s, t) && FnOk(s, u);
    if u != t && !s.fns[u].Checking? && !s.fns[u].Done? {
      if Key(s, u) == Key(s, t) {
        OneLeader(s, t, u);
      }
      KeyBagAdd(s.lru, Key(s, t), s.fns[t].value, s.max);
      KeyBagHas(s.lru, Key(s, u));
      KeyBagHas(s'.lru, Key(s, u));
    }
  }

  lemma InvPopulate(s: State, t: nat)
    requires Inv(s) && Enabled(s, Populate(t))
    ensures !R.Has(s.lru, Key(s, t))
    ensures Inv(Apply(s, Populate(t)))
  {
    var s' := Apply(s, Populate(t));
    assert FnOk(s, t);
    KeyBagAdd(s.lru, Key(s, t), s.fns[t].value, s.max);
    forall u | u in s'.fns
      ensures FnOk(s', u)
    {
      FnOkAfterPopulate(s, t, u);
    }
    forall k
      ensures CountOk(s', k)
    {
      CountAfterPopulate(s, t, k);
    }
  }

  lemma CountAfterPopulate(s: State, t: nat, k: string)
    requires Inv(s) && Enabled(s, Populate(t)) && !R.Has(s.lru, Key(s, t))
    ensures CountOk(Apply(s, Populate(t)), k)
  {
    var key, v := Key(s, t), s.fns[t].value;
    var kept, gone := KeyBag(R.Add(s.lru, key, v, s.max)), KeyBag(R.Evicted(s.lru, key, v, s.max));
    KeyBagAdd(s.lru, key, v, s.max);
    assert (kept + gone)[k] == (KeyBag(s.lru) + multiset{key})[k];
    assert CountOk(s, k);
    HeldAfterPopulate(s, t, k);
  }

  lemma InvStep(s: State, step: Step)
    requires Inv(s) && Enabled(s, step)
    ensures Inv(Apply(s, step))
  {
    match step
    case Flight(f) => InvFlight(s, f);
    case Check(t) => InvCheck(s, t);
    case Populate(t) => InvPopulate(s, t);
    case Fetch(t, out) =>
      if out.err == SF.NoError {
        InvFetch(s, t, out);
      } else {
        InvQuiet(s, step);
      }
    case _ => InvQuiet(s, step);
  }

  lemma {:induction false} InvHolds(max: nat, steps: seq<Step>)
    requires Exec(max, steps).Some?
    ensures Inv(Exec(max, steps).value) && Exec(max, steps).value.max == max
  {
    if steps != [] {
      InvHolds(max, steps[..|steps| - 1]);
      InvStep(Exec(max, steps[..|steps| - 1]).value, steps[|steps| - 1]);
    }
  }

  /** In every interleaving, whatever `PickPeer` answers from call to call. */
  lemma LoadsAreAccountedFor(max: nat, steps: seq<Step>, k: string)
    requires Exec(max, steps).Some?
    ensures var s := Exec(max, steps).value;
            s.loads[k] == s.evicted[k] + (if R.Has(s.lru, k) then 1 else 0) + (if Held(s, k) then 1 else 0)
  {
    InvHolds(max, steps);
    var s := Exec(max, steps).value;
    assert CountOk(s, k);
    KeyBagHas(s.lru, k);
  }

  /** `populateCache` never finds its key cached: `Add`'s update branch is dead code under `Group`. */
  lemma AddNeverUpdates(max: nat, steps: seq<Step>, t: nat)
    requires Exec(max, steps).Some? && Enabled(Exec(max, steps).value, Populate(t))
    ensures !R.Has(Exec(max, steps).value.lru, Key(Exec(max, steps).value, t))
  {
    InvHolds(max, steps);
    InvPopulate(Exec(max, steps).value, t);
  }

  lemma NothingEvictedStep(s: State, step: Step)
    requires s.max == 0 && s.evicted == multiset{} && Enabled(s, step)
    ensures Apply(s, step).max == 0 && Apply(s, step).evicted == multiset{}
  {
    match step
    case Flight(_) =>
    case Check(_) =>
    case Pick(_, _) =>
    case Ask(_, _) =>
    case Fetch(_, _) =>
    case Populate(t) => assert R.Evicted(s.lru, Key(s, t), s.fns[t].value, 0) == [];
  }

  lemma {:induction false} NothingEvicted(steps: seq<Step>)
    requires Exec(0, steps).Some?
    ensures Exec(0, steps).value.max == 0 && Exec(0, steps).value.evicted == multiset{}
  {
    if steps != [] {
      NothingEvicted(steps[..|steps| - 1]);
      NothingEvictedStep(Exec(0, steps[..|steps| - 1]).value, steps[|steps| - 1]);
    }
  }

  /** An unlimited cache loads every key at most once. */
  lemma UnlimitedLoadsOnce(steps: seq<Step>, k: string)
    requires Exec(0, steps).Some?
    ensures Exec(0, steps).value.loads[k] <= 1
  {
    NothingEvicted(steps);
    LoadsAreAccountedFor(0, steps, k);
    InvHolds(0, steps);
    var s := Exec(0, steps).value;
    forall t | R.Has(s.lru, k)
      ensures !Holds(s, t, k)
    {
      assert InFn(s, t) ==> FnOk(s, t);
    }
  }

  // ---------------------------------------------------------------------------------
  // Where values come from

  ghost predicate OutcomeSourced(s: State, key: string, out: Outcome) {
    if out.err == SF.NoError then (key, out.val) in s.fetched + s.received
    else (key, out.err) in s.failures && out.val == []
  }

  ghost predicate FnSourced(s: State, t: nat)
    requires InFn(s, t)
  {
    && (s.fns[t].Holding? ==> (Key(s, t), s.fns[t].value) in s.fetched)
    && (s.fns[t].Done? ==> OutcomeSourced(s, Key(s, t), s.fns[t].out))
  }

  ghost predicate Sourced(s: State) {
    && (forall i :: 0 <= i < |s.lru| ==> (s.lru[i].key, s.lru[i].value) in s.fetched)
    && (forall t :: InFn(s, t) ==> FnSourced(s, t))
    && |s.flight.runs| == |s.flight.calls|
    && (forall c :: 0 <= c < |s.flight.runs| && s.flight.runs[c].Some? ==>
          OutcomeSourced(s, s.flight.calls[c].key, s.flight.runs[c].value))
  }

  /** A step adds nothing to the cache but the pair that `Populate` holds. */
  lemma CachedFrom(s: State, step: Step, i: nat)
    requires Inv(s) && Enabled(s, step) && i < |Apply(s, step).lru|
    ensures var e := Apply(s, step).lru[i];
            e in s.lru || (step.Populate? && e == R.Pair(Key(s, step.t), s.fns[step.t].value))
  {
    if step.Populate? {
      assert FnOk(s, step.t);
      var front := R.Front(s.lru, Key(s, step.t), s.fns[step.t].value);
      assert Apply(s, step).lru[i] == front[i];
    } else if step.Check? {
      var j := R.IndexOf(s.lru, Key(s, step.t));
      assert j < |s.lru| ==> Apply(s, step).lru[i] == s.lru[if i == 0 then j else if i <= j then i - 1 else i];
    }
  }

  lemma SourcedFlight(s: State, f: SF.Step)
    requires Inv(s) && Sourced(s) && Enabled(s, Flight(f))
    ensures Sourced(Apply(s, Flight(f)))
  {
    var s' := Apply(s, Flight(f));
    if f.Finish? {
      assert SF.ThreadOk(s.flight, f.t) && FnSourced(s, f.t);
    }
    forall t | InFn(s', t)
      ensures FnSourced(s', t)
    {
      assert t in s.fns ==> FnOk(s, t) && FnSourced(s, t);
    }
  }

  lemma FnSourcedKept(s: State, step: Step, t: nat)
    requires Inv(s) && Sourced(s) && Enabled(s, step) && !step.Flight? && InFn(Apply(s, step), t)
    ensures FnSourced(Apply(s, step), t)
  {
    assert FnSourced(s, step.t) && FnSourced(s, t);
    match step
    case Check(u) =>
      if R.Has(s.lru, Key(s, u)) {
        var e := s.lru[R.IndexOf(s.lru, Key(s, u))];
        assert (e.key, e.value) in s.fetched;
      }
    case Pick(_, _) =>
    case Ask(_, _) =>
    case Fetch(_, _) =>
    case Populate(_) =>
  }

  lemma SourcedInFn(s: State, step: Step)
    requires Inv(s) && Sourced(s) && Enabled(s, step) && !step.Flight?
    ensures Sourced(Apply(s, step))
  {
    var s' := Apply(s, step);
    forall t | InFn(s', t)
      ensures FnSourced(s', t)
    {
      FnSourcedKept(s, step, t);
    }
    forall i | 0 <= i < |s'.lru|
      ensures (s'.lru[i].key, s'.lru[i].value) in s'.fetched
    {
      CachedFrom(s, step, i);
    }
  }

  lemma SourcedStep(s: State, step: Step)
    requires Inv(s) && Sourced(s) && Enabled(s, step)
    ensures Sourced(Apply(s, step))
  {
    if step.Flight? {
      SourcedFlight(s, step.step);
    } else {
      SourcedInFn(s, step);
    }
  }

  lemma {:induction false} SourcedHolds(max: nat, steps: seq<Step>)
    requires Exec(max, steps).Some?
    ensures Sourced(Exec(max, steps).value)
  {
    if steps != [] {
      var before := steps[..|steps| - 1];
      InvHolds(max, before);
      SourcedHolds(max, before);
      SourcedStep(Exec(max, before).value, steps[|steps| - 1]);
    }
  }

  /** A `Get` that returned gave a value that a getter run or a peer supplied for that very key, or
      the error of a getter run or a peer for it; a cached value always came from a getter run for its
      key. */
  lemma ValuesAreForTheirKey(max: nat, steps: seq<Step>, t: nat)
    requires Exec(max, steps).Some? && SF.AtCall(Exec(max, steps).value.flight, t)
    requires Exec(max, steps).value.flight.threads[t].pc.Returned?
    ensures var s := Exec(max, steps).value;
            var key, out := s.flight.threads[t].key, s.flight.threads[t].pc.out;
            if out.err == SF.NoError then (key, out.val) in s.fetched + s.received
            else (key, out.err) in s.failures && out.val == []
    ensures var s := Exec(max, steps).value;
            forall i :: 0 <= i < |s.lru| ==> (s.lru[i].key, s.lru[i].value) in s.fetched
  {
    InvHolds(max, steps);
    SourcedHolds(max, steps);
    assert SF.ThreadOk(Exec(max, steps).value.flight, t);
  }

  /** While neither the getter nor a peer has failed for a key, no `Get` of it fails. */
  lemma NoFailureNoError(max: nat, steps: seq<Step>, t: nat)
    requires Exec(max, steps).Some? && SF.AtCall(Exec(max, steps).value.flight, t)
    requires Exec(max, steps).value.flight.threads[t].pc.Returned?
    requires forall err :: (Exec(max, steps).value.flight.threads[t].key, err) !in Exec(max, steps).value.failures
    ensures Exec(max, steps).value.flight.threads[t].pc.out.err == SF.NoError
  {
    ValuesAreForTheirKey(max, steps, t);
  }

  // ---------------------------------------------------------------------------------
  // Which keys a node deals with, when `PickPeer` always answers by `own`

  type Ownership = string -> bool

  predicate Respects(s: State, step: Step, own: Ownership)
    requires Enabled(s, step)
  {
    step.Pick? ==> step.remote == !own(Key(s, step.t))
  }

  predicate FnOwned(s: State, t: nat, own: Ownership)
    requires InFn(s, t)
  {
    && (s.fns[t].Local? || s.fns[t].Holding? ==> own(Key(s, t)))
    && (s.fns[t].Remote? ==> !own(Key(s, t)))
  }

  ghost predicate OwnedOnly(s: State, own: Ownership) {
    && (forall e :: e in s.lru ==> own(e.key))
    && (forall t :: InFn(s, t) ==> FnOwned(s, t, own))
    && (forall k, v :: (k, v) in s.fetched ==> own(k))
    && (forall k, v :: (k, v) in s.received ==> !own(k))
    && (forall k :: k in s.loads ==> own(k))
  }

  lemma OwnedFlight(s: State, f: SF.Step, own: Ownership)
    requires Inv(s) && OwnedOnly(s, own) && Enabled(s, Flight(f))
    ensures OwnedOnly(Apply(s, Flight(f)), own)
  {
    var s' := Apply(s, Flight(f));
    forall t | InFn(s', t)
      ensures FnOwned(s', t, own)
    {
      assert t in s.fns ==> FnOk(s, t) && FnOwned(s, t, own);
    }
  }

  lemma OwnedCache(s: State, step: Step, own: Ownership)
    requires Inv(s) && OwnedOnly(s, own) && Enabled(s, step) && !step.Flight?
    ensures forall e :: e in Apply(s, step).lru ==> own(e.key)
  {
    var s' := Apply(s, step);
    assert FnOwned(s, step.t, own);
    forall e | e in s'.lru
      ensures own(e.key)
    {
      var i :| 0 <= i < |s'.lru| && s'.lru[i] == e;
      CachedFrom(s, step, i);
    }
  }

  lemma OwnedFns(s: State, step: Step, own: Ownership)
    requires Inv(s) && OwnedOnly(s, own) && Enabled(s, step) && Respects(s, step, own) && !step.Flight?
    ensures forall t :: InFn(Apply(s, step), t) ==> FnOwned(Apply(s, step), t, own)
  {
    forall t | InFn(Apply(s, step), t)
      ensures FnOwned(Apply(s, step), t, own)
    {
      FnOwnedKept(s, step, t, own);
    }
  }

  lemma FnOwnedKept(s: State, step: Step, t: nat, own: Ownership)
    requires Inv(s) && OwnedOnly(s, own) && Enabled(s, step) && Respects(s, step, own) && !step.Flight?
    requires InFn(Apply(s, step), t)
    ensures FnOwned(Apply(s, step), t, own)
  {
    assert FnOwned(s, step.t, own) && FnOwned(s, t, own);
    OnlyItsFn(s, step, t);
    if t == step.t {
      match step
      case Check(_) =>
      case Pick(_, _) =>
      case Ask(_, _) =>
      case Fetch(_, _) =>
      case Populate(_) =>
    }
  }

  lemma OnlyItsFn(s: State, step: Step, t: nat)
    requires Enabled(s, step) && !step.Flight? && InFn(Apply(s, step), t)
    ensures InFn(s, t) && Key(Apply(s, step), t) == Key(s, t)
    ensures t != step.t ==> Apply(s, step).fns[t] == s.fns[t]
  {
    match step
    case Check(_) =>
    case Pick(_, _) =>
    case Ask(_, _) =>
    case Fetch(_, _) =>
    case Populate(_) =>
  }

  lemma OwnedLogs(s: State, step: Step, own: Ownership)
    requires Inv(s) && OwnedOnly(s, own) && Enabled(s, step) && !step.Flight?
    ensures var s' := Apply(s, step);
            && (forall k, v :: (k, v) in s'.fetched ==> own(k))
            && (forall k, v :: (k, v) in s'.received ==> !own(k))
            && (forall k :: k in s'.loads ==> own(k))
  {
    assert FnOwned(s, step.t, own);
  }

  lemma OwnedStep(s: State, step: Step, own: Ownership)
    requires Inv(s) && OwnedOnly(s, own) && Enabled(s, step) && Respects(s, step, own)
    ensures OwnedOnly(Apply(s, step), own)
  {
    if step.Flight? {
      OwnedFlight(s, step.step, own);
    } else {
      OwnedFns(s, step, own);
      OwnedLogs(s, step, own);
      OwnedCache(s, step, own);
    }
  }

  /** For a key the node owns, every `Get` without an error returns what the getter gave for that
      key: with a deterministic source, its value. */
  lemma OwnedKeysReadTheSource(s: State, own: Ownership, source: string -> Bytes, t: nat)
    requires Inv(s) && Sourced(s) && OwnedOnly(s, own)
    requires forall k, v :: (k, v) in s.fetched ==> v == source(k)
    requires SF.AtCall(s.flight, t) && s.flight.threads[t].pc.Returned?
    requires own(s.flight.threads[t].key) && s.flight.threads[t].pc.out.err == SF.NoError
    ensures s.flight.threads[t].pc.out.val == source(s.flight.threads[t].key)
  {
    assert SF.ThreadOk(s.flight, t);
    assert (s.flight.threads[t].key, s.flight.threads[t].pc.out.val) in s.fetched + s.received;
  }
}
