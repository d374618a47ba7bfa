/** `singleflight.Group.Do` as a state machine: any number of goroutines, each inside one `Do`,
    interleaved step by step. A critical section under `mu` is one step; storing the two result
    fields, releasing the wait group and reading the fields back are separate steps. */
module SingleFlight {
  import opened Basics

  datatype Error = NoError | Failure(message: string)

  datatype Outcome = Outcome(val: Bytes, err: Error)

  /** The `call` record; `waiting` says that the wait group still blocks its waiters. */
  datatype Call = Call(key: string, leader: nat, val: Bytes, err: Error, waiting: bool)

  datatype Pc =
    | Entering
    | Waiting(call: nat)
    | Leading(call: nat)
    | InFn(call: nat)
    | Storing(call: nat, out: Outcome)
    | HalfStored(call: nat, out: Outcome)
    | Signalling(call: nat)
    | Deleting(call: nat)
    | Leaving(call: nat)
    | Returned(call: nat, out: Outcome)

  datatype Thread = Thread(key: string, pc: Pc)

  /** `runs[c]` records what `fn` returned for call `c`; the program never reads it. */
  datatype State = State(m: map<string, nat>, calls: seq<Call>, threads: seq<Thread>, runs: seq<Option<Outcome>>)

  const INIT := State(map[], [], [], [])

  datatype Step =
    | Start(key: string)
    | Enter(t: nat)
    | Wake(t: nat)
    | Begin(t: nat)
    | Finish(t: nat, out: Outcome)
    | StoreVal(t: nat)
    | StoreErr(t: nat)
    | Release(t: nat)
    | Delete(t: nat)
    | Return(t: nat)

  /** The first critical section of `Do`: join the call of `key`, or store the call `next`. */
  function Join(m: map<string, nat>, key: string, next: nat): (map<string, nat>, nat) {
    if key in m then (m, m[key]) else (m[key := next], next)
  }

  predicate AtCall(s: State, t: nat) {
    t < |s.threads| && !s.threads[t].pc.Entering? && s.threads[t].pc.call < |s.calls|
  }

  predicate Enabled(s: State, step: Step) {
    match step
    case Start(_) => true
    case Enter(t) => t < |s.threads| && s.threads[t].pc.Entering?
    case Wake(t) => AtCall(s, t) && s.threads[t].pc.Waiting? && !s.calls[s.threads[t].pc.call].waiting
    case Begin(t) => AtCall(s, t) && s.threads[t].pc.Leading?
    case Finish(t, _) => AtCall(s, t) && s.threads[t].pc.InFn? && s.threads[t].pc.call < |s.runs|
    case StoreVal(t) => AtCall(s, t) && s.threads[t].pc.Storing?
    case StoreErr(t) => AtCall(s, t) && s.threads[t].pc.HalfStored?
    case Release(t) => AtCall(s, t) && s.threads[t].pc.Signalling?
    case Delete(t) => AtCall(s, t) && s.threads[t].pc.Deleting?
    case Return(t) => AtCall(s, t) && s.threads[t].pc.Leaving?
  }

  function At(s: State, t: nat, pc: Pc): State
    requires t < |s.threads|
  {
    s.(threads := s.threads[t := s.threads[t].(pc := pc)])
  }

  function Apply(s: State, step: Step): State
    requires Enabled(s, step)
  {
    match step
    case Start(key) => s.(threads := s.threads + [Thread(key, Entering)])
    case Enter(t) =>
      var key := s.threads[t].key;
      var (m, c) := Join(s.m, key, |s.calls|);
      if key in s.m then At(s, t, Waiting(c))
      else At(s.(m := m, calls := s.calls + [Call(key, t, [], NoError, true)], runs := s.runs + [None]), t, Leading(c))
    case Wake(t) => At(s, t, Leaving(s.threads[t].pc.call))
    case Begin(t) => At(s, t, InFn(s.threads[t].pc.call))
    case Finish(t, out) =>
      var c := s.threads[t].pc.call;
      At(s.(runs := s.runs[c := Some(out)]), t, Storing(c, out))
    case StoreVal(t) =>
      var pc := s.threads[t].pc;
      At(s.(calls := s.calls[pc.call := s.calls[pc.call].(val := pc.out.val)]), t, HalfStored(pc.call, pc.out))
    case StoreErr(t) =>
      var pc := s.threads[t].pc;
      At(s.(calls := s.calls[pc.call := s.calls[pc.call].(err := pc.out.err)]), t, Signalling(pc.call))
    case Release(t) =>
      var c := s.threads[t].pc.call;
      At(s.(calls := s.calls[c := s.calls[c].(waiting := false)]), t, Deleting(c))
    case Delete(t) => At(s.(m := s.m - {s.threads[t].key}), t, Leaving(s.threads[t].pc.call))
    case Return(t) =>
      var c := s.threads[t].pc.call;
      At(s, t, Returned(c, Outcome(s.calls[c].val, s.calls[c].err)))
  }

  /** The state a schedule leads to, when every step of it is possible. */
  function Exec(steps: seq<Step>): Option<State> {
    if steps == [] then Some(INIT)
    else match Exec(steps[..|steps| - 1])
      case None => None
      case Some(s) =>
        var step := steps[|steps| - 1];
        if Enabled(s, step) then Some(Apply(s, step)) else None
  }

  // ---------------------------------------------------------------------------------
  // The invariant

  /** The thread leads its call: it has stored it in `m` and not yet deleted it. */
  predicate Leads(pc: Pc) {
    pc.Leading? || pc.InFn? || pc.Storing? || pc.HalfStored? || pc.Signalling? || pc.Deleting?
  }

  ghost predicate ThreadOk(s: State, t: nat)
    requires t < |s.threads|
  {
    var th := s.threads[t];
    !th.pc.Entering? ==>
      var c := th.pc.call;
      && c < |s.calls| == |s.runs|
      && s.calls[c].key == th.key
      && (Leads(th.pc) ==> s.calls[c].leader == t && th.key in s.m && s.m[th.key] == c)
      && (th.pc.Waiting? ==> s.calls[c].leader != t)
      && (th.pc.Leaving? ==> !s.calls[c].waiting)
      && (th.pc.Returned? ==> s.runs[c] == Some(th.pc.out))
  }

  ghost predicate CallOk(s: State, c: nat)
    requires c < |s.calls| == |s.runs|
  {
    var call := s.calls[c];
    && call.leader < |s.threads|
    && s.threads[call.leader].key == call.key
    && var pc := s.threads[call.leader].pc;
    && !pc.Entering? && !pc.Waiting? && pc.call == c
    && (call.waiting <==> Leads(pc) && !pc.Deleting?)
    && (!call.waiting ==> s.runs[c] == Some(Outcome(call.val, call.err)))
    && (pc.Leading? || pc.InFn? ==> s.runs[c] == None)
    && (pc.Storing? ==> s.runs[c] == Some(pc.out))
    && (pc.HalfStored? ==> s.runs[c] == Some(pc.out) && call.val == pc.out.val)
    && (pc.Signalling? ==> s.runs[c] == Some(Outcome(call.val, call.err)))
  }

  ghost predicate EntryOk(s: State, k: string)
    requires k in s.m
  {
    && s.m[k] < |s.calls| && s.calls[s.m[k]].key == k
    && s.calls[s.m[k]].leader < |s.threads|
    && Leads(s.threads[s.calls[s.m[k]].leader].pc)
  }

  ghost predicate Inv(s: State) {
    && |s.runs| == |s.calls|
    && (forall t :: 0 <= t < |s.threads| ==> ThreadOk(s, t))
    && (forall c :: 0 <= c < |s.calls| ==> CallOk(s, c))
    && (forall k :: k in s.m ==> EntryOk(s, k))
  }

  lemma InvEnter(s: State, t: nat)
    requires Inv(s) && Enabled(s, Enter(t))
    ensures Inv(Apply(s, Enter(t)))
  {
    var s', key := Apply(s, Enter(t)), s.threads[t].key;
    if key in s.m {
      assert EntryOk(s, key);
    }
    forall u | 0 <= u < |s'.threads| ensures ThreadOk(s', u) {
      assert ThreadOk(s, u);
    }
    forall c | 0 <= c < |s'.calls| ensures CallOk(s', c) {
      assert c < |s.calls| ==> CallOk(s, c);
    }
    forall k | k in s'.m ensures EntryOk(s', k) {
      assert k in s.m ==> EntryOk(s, k);
    }
  }

  lemma InvFinish(s: State, t: nat, out: Outcome)
    requires Inv(s) && Enabled(s, Finish(t, out))
    ensures Inv(Apply(s, Finish(t, out)))
  {
    var s', c := Apply(s, Finish(t, out)), s.threads[t].pc.call;
    assert ThreadOk(s, t) && CallOk(s, c);
    forall u | 0 <= u < |s'.threads| ensures ThreadOk(s', u) {
      assert ThreadOk(s, u);
    }
    forall d | 0 <= d < |s'.calls| ensures CallOk(s', d) {
      assert CallOk(s, d);
    }
    forall k | k in s'.m ensures EntryOk(s', k) {
      assert EntryOk(s, k);
    }
  }

  lemma InvDelete(s: State, t: nat)
    requires Inv(s) && Enabled(s, Delete(t))
    ensures Inv(Apply(s, Delete(t)))
  {
    var s' := Apply(s, Delete(t));
    assert ThreadOk(s, t) && CallOk(s, s.threads[t].pc.call);
    forall u | 0 <= u < |s'.threads| ensures ThreadOk(s', u) {
      assert ThreadOk(s, u);
    }
    forall c | 0 <= c < |s'.calls| ensures CallOk(s', c) {
      assert CallOk(s, c);
    }
    forall k | k in s'.m ensures EntryOk(s', k) {
      assert EntryOk(s, k) && CallOk(s, s.m[k]);
    }
  }

  lemma InvStart(s: State, key: string)
    requires Inv(s)
    ensures Inv(Apply(s, Start(key)))
  {
    var s' := Apply(s, Start(key));
    forall u | 0 <= u < |s'.threads| ensures ThreadOk(s', u) {
      assert u < |s.threads| ==> ThreadOk(s, u);
    }
    forall c | 0 <= c < |s'.calls| ensures CallOk(s', c) {
      assert CallOk(s, c);
    }
    forall k | k in s'.m ensures EntryOk(s', k) {
      assert EntryOk(s, k);
    }
  }

  /** The steps that move a thread and leave the calls alone. */
  lemma InvThread(s: State, step: Step)
    requires Inv(s) && Enabled(s, step) && (step.Wake? || step.Begin? || step.Return?)
    ensures Inv(Apply(s, step))
  {
    var s' := Apply(s, step);
    assert ThreadOk(s, step.t) && CallOk(s, s.threads[step.t].pc.call);
    forall u | 0 <= u < |s'.threads| ensures ThreadOk(s', u) {
      assert ThreadOk(s, u);
    }
    forall c | 0 <= c < |s'.calls| ensures CallOk(s', c) {
      assert CallOk(s, c);
    }
    forall k | k in s'.m ensures EntryOk(s', k) {
      assert EntryOk(s, k);
    }
  }

  /** The steps of a leader on its call. */
  lemma InvResult(s: State, step: Step)
    requires Inv(s) && Enabled(s, step) && (step.StoreVal? || step.StoreErr? || step.Release?)
    ensures Inv(Apply(s, step))
  {
    var s' := Apply(s, step);
    assert ThreadOk(s, step.t) && CallOk(s, s.threads[step.t].pc.call);
    forall u | 0 <= u < |s'.threads| ensures ThreadOk(s', u) {
      assert ThreadOk(s, u);
    }
    forall c | 0 <= c < |s'.calls| ensures CallOk(s', c) {
      assert CallOk(s, c);
    }
    forall k | k in s'.m ensures EntryOk(s', k) {
      assert EntryOk(s, k);
    }
  }

  lemma InvStep(s: State, step: Step)
    requires Inv(s) && Enabled(s, step)
    ensures Inv(Apply(s, step))
  {
    match step
    case Enter(t) => InvEnter(s, t);
    case Finish(t, out) => InvFinish(s, t, out);
    case Delete(t) => InvDelete(s, t);
    case Start(key) => InvStart(s, key);
    case Wake(_) => InvThread(s, step);
    case Begin(_) => InvThread(s, step);
    case Return(_) => InvThread(s, step);
    case _ => InvResult(s, step);
  }

  lemma {:induction false} InvHolds(steps: seq<Step>)
    requires Exec(steps).Some?
    ensures Inv(Exec(steps).value)
  {
    if steps != [] {
      InvHolds(steps[..|steps| - 1]);
      InvStep(Exec(steps[..|steps| - 1]).value, steps[|steps| - 1]);
    }
  }

  // ---------------------------------------------------------------------------------
  // Safety

  predicate Running(s: State, t: nat, key: string) {
    t < |s.threads| && s.threads[t].pc.InFn? && s.threads[t].key == key
  }

  /** Executions of `fn` for one key never overlap. */
  lemma OneExecutionPerKey(steps: seq<Step>, t: nat, u: nat, key: string)
    requires Exec(steps).Some?
    requires Running(Exec(steps).value, t, key) && Running(Exec(steps).value, u, key)
    ensures t == u
  {
    InvHolds(steps);
    var s := Exec(steps).value;
    assert ThreadOk(s, t) && ThreadOk(s, u);
  }

  /** A `delete` always removes the call its own leader stored. */
  lemma DeleteRemovesOwnCall(steps: seq<Step>, t: nat)
    requires Exec(steps).Some? && Enabled(Exec(steps).value, Delete(t))
    ensures var s := Exec(steps).value;
            var key, c := s.threads[t].key, s.threads[t].pc.call;
            key in s.m && s.m[key] == c && s.calls[c].leader == t
  {
    InvHolds(steps);
    assert ThreadOk(Exec(steps).value, t);
  }

  /** Thread `t` has called `Do` and `Do` has not returned. */
  predicate InDo(o: Option<State>, t: nat) {
    o.Some? && t < |o.value.threads| && !o.value.threads[t].pc.Returned?
  }

  ghost predicate Overlap(steps: seq<Step>, t: nat, u: nat) {
    exists n :: 0 <= n <= |steps| && InDo(Exec(steps[..n]), t) && InDo(Exec(steps[..n]), u)
  }

  /** A thread gets its call when it enters, and keeps it. */
  lemma CallKept(s: State, step: Step, t: nat)
    requires Inv(s) && Enabled(s, step) && AtCall(Apply(s, step), t)
    ensures AtCall(s, t) ==>
              var s' := Apply(s, step);
              && s'.threads[t].pc.call == s.threads[t].pc.call
              && s'.calls[s.threads[t].pc.call].leader == s.calls[s.threads[t].pc.call].leader
    ensures !AtCall(s, t) ==> step == Enter(t)
  {
    if t < |s.threads| {
      assert ThreadOk(s, t);
    }
  }

  /** When a thread enters, its leader is inside `Do`, whether it is another thread or itself. */
  lemma LeaderPresent(s: State, t: nat)
    requires Inv(s) && Enabled(s, Enter(t))
    ensures var s' := Apply(s, Enter(t));
            InDo(Some(s'), t) && InDo(Some(s'), s'.calls[s'.threads[t].pc.call].leader)
  {
    if s.threads[t].key in s.m {
      assert EntryOk(s, s.threads[t].key);
    }
  }

  /** What a thread has been given is led by a `Do` that was under way together with its own. */
  lemma {:induction false} LeaderOverlaps(steps: seq<Step>, t: nat)
    requires Exec(steps).Some? && AtCall(Exec(steps).value, t)
    ensures var s := Exec(steps).value; Overlap(steps, t, s.calls[s.threads[t].pc.call].leader)
  {
    assert steps != [];
    var before, step := steps[..|steps| - 1], steps[|steps| - 1];
    var s, s' := Exec(before).value, Exec(steps).value;
    var u := s'.calls[s'.threads[t].pc.call].leader;
    InvHolds(before);
    CallKept(s, step, t);
    if AtCall(s, t) {
      LeaderOverlaps(before, t);
      var n :| 0 <= n <= |before| && InDo(Exec(before[..n]), t) && InDo(Exec(before[..n]), u);
      assert before[..n] == steps[..n];
    } else {
      LeaderPresent(s, t);
      assert steps[..|steps|] == steps;
    }
  }

  /** Every `Do` that has returned gave the complete outcome, value and error together, of one
      execution of `fn` for its key, whose leader was inside `Do` at the same time. */
  lemma ReturnsOneExecution(steps: seq<Step>, t: nat)
    requires Exec(steps).Some? && AtCall(Exec(steps).value, t) && Exec(steps).value.threads[t].pc.Returned?
    ensures var s := Exec(steps).value;
            var pc := s.threads[t].pc;
            && s.calls[pc.call].key == s.threads[t].key
            && pc.call < |s.runs| && s.runs[pc.call] == Some(pc.out)
            && Overlap(steps, t, s.calls[pc.call].leader)
  {
    InvHolds(steps);
    assert ThreadOk(Exec(steps).value, t);
    LeaderOverlaps(steps, t);
  }

  // ---------------------------------------------------------------------------------
  // Progress

  predicate Unfinished(s: State, t: nat) {
    t < |s.threads| && !s.threads[t].pc.Returned?
  }

  ghost predicate CanMove(s: State) {
    exists step: Step :: !step.Start? && !step.Finish? && Enabled(s, step)
  }

  lemma ProgressAt(s: State, t: nat)
    requires Inv(s) && Unfinished(s, t)
    requires forall u :: 0 <= u < |s.threads| ==> !s.threads[u].pc.InFn?
    ensures CanMove(s)
  {
    assert ThreadOk(s, t);
    var u := t;
    if s.threads[t].pc.Waiting? && s.calls[s.threads[t].pc.call].waiting {
      u := s.calls[s.threads[t].pc.call].leader;
      assert CallOk(s, s.threads[t].pc.call) && ThreadOk(s, u);
    }
    assert Enabled(s, NextStep(s, u));
  }

  /** No deadlock: while some `Do` is unfinished and no `fn` runs, some goroutine can go on. */
  lemma Progress(steps: seq<Step>, t: nat)
    requires Exec(steps).Some? && Unfinished(Exec(steps).value, t)
    requires forall u :: 0 <= u < |Exec(steps).value.threads| ==> !Exec(steps).value.threads[u].pc.InFn?
    ensures CanMove(Exec(steps).value)
  {
    InvHolds(steps);
    ProgressAt(Exec(steps).value, t);
  }

  /** The step a thread that is not in `fn` wants to make. */
  function NextStep(s: State, t: nat): Step
    requires Unfinished(s, t) && !s.threads[t].pc.InFn?
  {
    match s.threads[t].pc
    case Entering => Enter(t)
    case Waiting(_) => Wake(t)
    case Leading(_) => Begin(t)
    case Storing(_, _) => StoreVal(t)
    case HalfStored(_, _) => StoreErr(t)
    case Signalling(_) => Release(t)
    case Deleting(_) => Delete(t)
    case Leaving(_) => Return(t)
  }

  /** An upper bound on the steps a thread still has to make. */
  function Left(pc: Pc): nat {
    match pc
    case Entering => 9
    case Leading(_) => 8
    case InFn(_) => 7
    case Storing(_, _) => 6
    case HalfStored(_, _) => 5
    case Signalling(_) => 4
    case Deleting(_) => 3
    case Waiting(_) => 2
    case Leaving(_) => 1
    case Returned(_, _) => 0
  }

  function Work(ths: seq<Thread>): nat {
    if ths == [] then 0 else Left(ths[0].pc) + Work(ths[1..])
  }

  lemma WorkUpdate(ths: seq<Thread>, t: nat, th: Thread)
    requires t < |ths|
    ensures Work(ths[t := th]) == Work(ths) - Left(ths[t].pc) + Left(th.pc)
  {
    if t > 0 {
      assert ths[t := th][1..] == ths[1..][t - 1 := th];
      WorkUpdate(ths[1..], t - 1, th);
    }
  }

  lemma WorkStep(s: State, step: Step)
    requires Enabled(s, step) && !step.Start?
    ensures Work(Apply(s, step).threads) < Work(s.threads)
  {
    WorkUpdate(s.threads, step.t, Apply(s, step).threads[step.t]);
  }

  /** Once no new `Do` starts, only boundedly many steps remain: a schedule that goes on as long
      as it can ends, and by `Progress` it ends with every `Do` returned. */
  lemma {:induction false} BoundedWork(before: seq<Step>, after: seq<Step>)
    requires Exec(before + after).Some?
    requires forall i :: 0 <= i < |after| ==> !after[i].Start?
    ensures Exec(before).Some?
    ensures Work(Exec(before + after).value.threads) + |after| <= Work(Exec(before).value.threads)
  {
    if after == [] {
      assert before + after == before;
    } else {
      var rest, step := after[..|after| - 1], after[|after| - 1];
      assert (before + after)[..|before + after| - 1] == before + rest;
      BoundedWork(before, rest);
      WorkStep(Exec(before + rest).value, step);
    }
  }

  lemma AllReturn(before: seq<Step>, after: seq<Step>)
    requires Exec(before + after).Some?
    requires forall i :: 0 <= i < |after| ==> !after[i].Start?
    requires forall step: Step :: !step.Start? ==> !Enabled(Exec(before + after).value, step)
    ensures Exec(before).Some? && |after| <= Work(Exec(before).value.threads)
    ensures var threads := Exec(before + after).value.threads;
            forall t :: 0 <= t < |threads| ==> threads[t].pc.Returned?
  {
    BoundedWork(before, after);
    InvHolds(before + after);
    var s := Exec(before + after).value;
    forall t | 0 <= t < |s.threads|
      ensures s.threads[t].pc.Returned?
    {
      forall u | 0 <= u < |s.threads|
        ensures !s.threads[u].pc.InFn?
      {
        assert ThreadOk(s, u) && !Enabled(s, Finish(u, Outcome([], NoError)));
      }
      if !s.threads[t].pc.Returned? {
        Progress(before + after, t);
      }
    }
  }

  // ---------------------------------------------------------------------------------
  // The critical sections as they run on the object

  class Record {
    /** The position of this call in `State.calls`. */
    ghost const id: nat
    var val: Bytes
    var err: Error
    var waiting: bool

    constructor (ghost id: nat)
      ensures this.id == id && val == [] && err == NoError && waiting
    {
      this.id := id;
      val, err, waiting := [], NoError, true;
    }
  }

  class Group {
    var m: map<string, Record>
    /** How many calls have been created. */
    ghost var created: nat

    constructor ()
      ensures Table() == INIT.m && created == |INIT.calls|
    {
      m, created := map[], 0;
    }

    ghost function Table(): map<string, nat>
      reads this
    {
      map k | k in m :: m[k].id
    }

    /** The first critical section; `joined` says that `c` belongs to another `Do`. */
    method Enter(key: string) returns (c: Record, joined: bool)
      modifies this
      ensures var (table, id) := Join(old(Table()), key, old(created));
              Table() == table && c.id == id
      ensures joined == (key in old(m)) && (joined ==> c == old(m)[key])
      ensures created == old(created) + if joined then 0 else 1
      ensures !joined ==> fresh(c) && c.waiting && c.val == [] && c.err == NoError
    {
      joined := key in m;
      if joined {
        c := m[key];
      } else {
        c := new Record(created);
        m, created := m[key := c], created + 1;
      }
      assert Table() == Join(old(Table()), key, old(created)).0;
    }

    /** The second critical section. */
    method Delete(key: string)
      modifies this`m
      ensures Table() == old(Table()) - {key}
    {
      m := m - {key};
    }
  }
}
