/** Every `Group.Get` returns, as long as getters and peers answer. */
module GroupProgress {
  import SF = SingleFlight
  import opened GroupGet

  /** An upper bound on the steps inside `fn` that a leader still has to make. */
  function FnLeft(pc: FnPc): (n: nat)
    ensures 0 < n < 6
  {
    match pc
    case Checking => 5
    case Missed => 4
    case Remote => 3
    case Local => 3
    case Holding(_) => 2
    case Done(_) => 1
  }

  /** An upper bound on the steps that thread `t` still has to make. */
  function Left(s: State, t: nat): nat
    requires t < |s.flight.threads|
  {
    var pc := s.flight.threads[t].pc;
    6 * SF.Left(pc) + if pc.InFn? && t in s.fns then FnLeft(s.fns[t]) else 0
  }

  function Work(s: State, n: nat): nat
    requires n <= |s.flight.threads|
  {
    if n == 0 then 0 else Work(s, n - 1) + Left(s, n - 1)
  }

  /** No thread has more left, and thread `t` has less. */
  lemma {:induction false} WorkFalls(s: State, s': State, t: nat, n: nat)
    requires n <= |s.flight.threads| == |s'.flight.threads| && t < |s.flight.threads|
    requires forall u :: 0 <= u < n && u != t ==> Left(s', u) == Left(s, u)
    requires Left(s', t) < Left(s, t)
    ensures if t < n then Work(s', n) < Work(s, n) else Work(s', n) == Work(s, n)
  {
    if n > 0 {
      WorkFalls(s, s', t, n - 1);
    }
  }

  predicate Starts(step: Step) {
    step.Flight? && step.step.Start?
  }

  function Thread(step: Step): nat
    requires !Starts(step)
  {
    if step.Flight? then step.step.t else step.t
  }

  /** A step of the flight moves its own thread forward. */
  lemma FlightForward(f: SF.State, step: SF.Step)
    requires SF.Enabled(f, step) && !step.Start?
    ensures var f' := SF.Apply(f, step);
            && step.t < |f.threads| == |f'.threads|
            && (forall u :: 0 <= u < |f.threads| && u != step.t ==> f'.threads[u] == f.threads[u])
            && SF.Left(f'.threads[step.t].pc) < SF.Left(f.threads[step.t].pc)
            && (f'.threads[step.t].pc.InFn? ==> step.Begin?)
  {
    match step
    case Enter(_) =>
    case Wake(_) =>
    case Begin(_) =>
    case Finish(_, _) =>
    case StoreVal(_) =>
    case StoreErr(_) =>
    case Release(_) =>
    case Delete(_) =>
    case Return(_) =>
  }

  /** A step inside `fn` belongs to a leader and leaves the other threads alone. */
  lemma FnStays(s: State, step: Step)
    requires Inv(s) && Enabled(s, step) && !step.Flight?
    ensures var s' := Apply(s, step);
            && s'.flight == s.flight && step.t < |s.flight.threads| && s.flight.threads[step.t].pc.InFn?
            && (forall u :: u != step.t ==> (u in s'.fns <==> u in s.fns) && (u in s.fns ==> s'.fns[u] == s.fns[u]))
  {
    assert FnOk(s, step.t);
  }

  lemma FnForward(s: State, step: Step)
    requires Inv(s) && Enabled(s, step) && !step.Flight?
    ensures var s' := Apply(s, step);
            step.t in s.fns && step.t in s'.fns && FnLeft(s'.fns[step.t]) < FnLeft(s.fns[step.t])
  {
    match step
    case Check(_) =>
    case Pick(_, _) =>
    case Ask(_, _) =>
    case Fetch(_, _) =>
    case Populate(_) =>
  }

  lemma WorkStep(s: State, step: Step)
    requires Inv(s) && Enabled(s, step) && !Starts(step)
    ensures |Apply(s, step).flight.threads| == |s.flight.threads|
    ensures Work(Apply(s, step), |s.flight.threads|) < Work(s, |s.flight.threads|)
  {
    if step.Flight? {
      FlightForward(s.flight, step.step);
    } else {
      FnStays(s, step);
      FnForward(s, step);
    }
    WorkFalls(s, Apply(s, step), Thread(step), |s.flight.threads|);
  }

  /** Once no `Get` starts, only boundedly many steps remain. */
  lemma {:induction false} BoundedWork(max: nat, before: seq<Step>, after: seq<Step>)
    requires Exec(max, before + after).Some?
    requires forall i :: 0 <= i < |after| ==> !Starts(after[i])
    ensures Exec(max, before).Some?
    ensures var s, s' := Exec(max, before).value, Exec(max, before + after).value;
            && |s'.flight.threads| == |s.flight.threads|
            && Work(s', |s.flight.threads|) + |after| <= Work(s, |s.flight.threads|)
  {
    if after == [] {
      assert before + after == before;
    } else {
      var rest, step := after[..|after| - 1], after[|after| - 1];
      assert (before + after)[..|before + after| - 1] == before + rest;
      BoundedWork(max, before, rest);
      InvHolds(max, before + rest);
      WorkStep(Exec(max, before + rest).value, step);
    }
  }

  /** A leader inside `fn` can always go on: getters and peers answer, and nothing else is waited for. */
  lemma FnCanMove(s: State, t: nat) returns (step: Step)
    requires Inv(s) && t < |s.flight.threads| && s.flight.threads[t].pc.InFn?
    ensures !Starts(step) && Enabled(s, step)
  {
    assert SF.ThreadOk(s.flight, t);
    var out := SF.Outcome([], SF.NoError);
    match s.fns[t]
    case Checking => step := Check(t);
    case Missed => step := Pick(t, true);
    case Remote => step := Ask(t, out);
    case Local => step := Fetch(t, out);
    case Holding(_) => step := Populate(t);
    case Done(o) => step := Flight(SF.Finish(t, o));
  }

  /** A schedule that goes on as long as it can ends, and ends with every `Get` returned, whatever
      `PickPeer`, the peers and the getter answer. */
  lemma EveryGetReturns(max: nat, before: seq<Step>, after: seq<Step>)
    requires Exec(max, before + after).Some?
    requires forall i :: 0 <= i < |after| ==> !Starts(after[i])
    requires forall step :: !Starts(step) ==> !Enabled(Exec(max, before + after).value, step)
    ensures Exec(max, before).Some?
    ensures var s := Exec(max, before).value; |after| <= Work(s, |s.flight.threads|)
    ensures var threads := Exec(max, before + after).value.flight.threads;
            forall t :: 0 <= t < |threads| ==> threads[t].pc.Returned?
  {
    BoundedWork(max, before, after);
    InvHolds(max, before + after);
    var s := Exec(max, before + after).value;
    forall t | 0 <= t < |s.flight.threads|
      ensures s.flight.threads[t].pc.Returned?
    {
      if !s.flight.threads[t].pc.Returned? {
        SomeStep(s, t);
      }
    }
  }

  lemma SomeStep(s: State, t: nat)
    requires Inv(s) && SF.Unfinished(s.flight, t)
    ensures exists step :: !Starts(step) && Enabled(s, step)
  {
    if u: nat :| u < |s.flight.threads| && s.flight.threads[u].pc.InFn? {
      var step := FnCanMove(s, u);
    } else {
      SF.ProgressAt(s.flight, t);
      var f: SF.Step :| !f.Start? && !f.Finish? && SF.Enabled(s.flight, f);
      assert Enabled(s, Flight(f));
    }
  }
}
