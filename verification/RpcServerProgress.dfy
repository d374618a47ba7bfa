/** The server's handlers never get stuck: once no request comes in any more and services return,
    every handler finishes and the connection is closed. */
module RpcServerProgress {
  import opened Basics
  import opened RpcServer

  // ---------------------------------------------------------------------------------
  // No deadlock

  /** Request `j` waits for its service, and for nothing else. */
  predicate InCall(s: State, j: nat) {
    j < |s.jobs| && s.jobs[j].outer.Selecting? && s.jobs[j].inner.Calling?
  }

  /** The next step of a goroutine that holds `sending`, or wants it while it is free. */
  function SendStep(s: State, w: Who): Step
    requires PhaseOf(s, w).Some?
  {
    match PhaseOf(s, w).value
    case NeedLock => Acquire(w)
    case HeadNext => WriteHead(w, false)
    case BodyNext => WriteBody(w, false)
    case Unlocking => Release(w)
  }

  /** Whoever is inside `sendResponse`, it or the holder of `sending` can go on. */
  lemma SenderCanMove(s: State, w: Who) returns (step: Step)
    requires LockOk(s) && PhaseOf(s, w).Some?
    ensures BySender(step) && Enabled(s, step)
  {
    if PhaseOf(s, w).value.NeedLock? && s.lock.Some? {
      assert Holding(s, s.lock.value);
      step := SendStep(s, s.lock.value);
    } else {
      step := SendStep(s, w);
    }
  }

  lemma InnerCanMove(s: State, j: nat) returns (step: Step)
    requires LockOk(s) && j < |s.jobs| && JobOk(s.cfg, s.jobs[j]) && s.jobs[j].outer.AwaitSent?
    ensures !ByReader(step) && !step.Call? && Enabled(s, step)
  {
    match s.jobs[j].inner
    case Called => step := Answer(j);
    case Answering(_) => step := SenderCanMove(s, InnerOf(j));
    case OfferSent => step := Sent(j);
  }

  lemma OuterCanMove(s: State, j: nat) returns (step: Step)
    requires j < |s.jobs| && JobOk(s.cfg, s.jobs[j]) && !InCall(s, j)
    requires s.jobs[j].outer.Selecting? || s.jobs[j].outer.Expired? || s.jobs[j].outer.Finishing?
    ensures ByHandler(step) && !step.Call? && Enabled(s, step)
  {
    if s.jobs[j].outer.Selecting? {
      step := HandOver(j);
    } else if s.jobs[j].outer.Expired? {
      step := GiveUp(j);
    } else {
      step := Finish(j);
    }
  }

  lemma HandlerCanMove(s: State, j: nat) returns (step: Step)
    requires LockOk(s) && j < |s.jobs| && JobOk(s.cfg, s.jobs[j]) && !s.jobs[j].outer.Finished? && !InCall(s, j)
    ensures !ByReader(step) && !step.Call? && Enabled(s, step)
  {
    if s.jobs[j].outer.AwaitSent? {
      step := InnerCanMove(s, j);
    } else if s.jobs[j].outer.Sending? {
      step := SenderCanMove(s, OuterOf(j));
    } else {
      step := OuterCanMove(s, j);
    }
  }

  /** In every reachable state a handler that has not finished waits for its service, or some
      goroutine of a request can go on. */
  lemma HandlersProgress(cfg: Config, steps: seq<Step>, j: nat) returns (step: Step)
    requires Exec(cfg, steps).Some?
    requires var s := Exec(cfg, steps).value; j < |s.jobs| && !s.jobs[j].outer.Finished? && !InCall(s, j)
    ensures !ByReader(step) && !step.Call? && Enabled(Exec(cfg, steps).value, step)
  {
    InvHolds(cfg, steps);
    step := HandlerCanMove(Exec(cfg, steps).value, j);
  }

  // ---------------------------------------------------------------------------------
  // A falling measure

  function PhaseLeft(p: Phase): (n: nat)
    ensures 2 <= n <= 5
  {
    match p
    case NeedLock => 5
    case HeadNext => 4
    case BodyNext => 3
    case Unlocking => 2
  }

  function OuterLeft(outer: Outer): nat {
    match outer
    case Selecting => 7
    case Expired => 6
    case AwaitSent => 2
    case Sending(p) => PhaseLeft(p)
    case Finishing => 1
    case Finished => 0
  }

  function InnerLeft(inner: Inner): nat {
    match inner
    case Calling => 8
    case Offering => 7
    case Called => 6
    case Answering(p) => PhaseLeft(p)
    case OfferSent => 1
    case Exited => 0
  }

  function JobLeft(job: Job): nat {
    OuterLeft(job.outer) + InnerLeft(job.inner)
  }

  /** A request that is about to be accepted counts with the reader. */
  function ReaderLeft(reader: Reader): nat {
    match reader
    case GotHead(_) => 19
    case GotService(_) => 18
    case Rejecting(_, _, p) => PhaseLeft(p) + 1
    case AtHead => 2
    case Draining => 1
    case Closed => 0
  }

  function JobsLeft(jobs: seq<Job>): nat {
    if jobs == [] then 0 else JobsLeft(jobs[..|jobs| - 1]) + JobLeft(jobs[|jobs| - 1])
  }

  function Work(s: State): nat {
    ReaderLeft(s.reader) + JobsLeft(s.jobs)
  }

  lemma {:induction false} JobsUpdated(jobs: seq<Job>, j: nat, job: Job)
    requires j < |jobs|
    ensures JobsLeft(jobs[j := job]) == JobsLeft(jobs) - JobLeft(jobs[j]) + JobLeft(job)
  {
    var n := |jobs| - 1;
    if j < n {
      assert jobs[j := job][..n] == jobs[..n][j := job];
      JobsUpdated(jobs[..n], j, job);
    } else {
      assert jobs[j := job][..n] == jobs[..n];
    }
  }

  /** Job `j` moves forward, and nothing else moves. */
  lemma OneJobForward(s: State, s': State, j: nat)
    requires s'.reader == s.reader && j < |s.jobs| == |s'.jobs| && s'.jobs == s.jobs[j := s'.jobs[j]]
    requires JobLeft(s'.jobs[j]) < JobLeft(s.jobs[j])
    ensures Work(s') < Work(s)
  {
    JobsUpdated(s.jobs, j, s'.jobs[j]);
  }

  lemma HandlerForward(s: State, step: Step)
    requires Enabled(s, step) && ByHandler(step)
    ensures Work(Apply(s, step)) < Work(s)
  {
    match step
    case Call(j, _) => OneJobForward(s, Apply(s, step), j);
    case HandOver(j) => OneJobForward(s, Apply(s, step), j);
    case Answer(j) => OneJobForward(s, Apply(s, step), j);
    case Expire(j) => OneJobForward(s, Apply(s, step), j);
    case GiveUp(j) => OneJobForward(s, Apply(s, step), j);
    case Sent(j) => OneJobForward(s, Apply(s, step), j);
    case Finish(j) => OneJobForward(s, Apply(s, step), j);
  }

  lemma PhaseForward(s: State, w: Who, p: Phase)
    requires PhaseOf(s, w).Some? && PhaseLeft(p) < PhaseLeft(PhaseOf(s, w).value)
    ensures Work(ToPhase(s, w, p)) < Work(s)
  {
    match w
    case TheReader =>
    case InnerOf(j) => OneJobForward(s, ToPhase(s, w, p), j);
    case OuterOf(j) => OneJobForward(s, ToPhase(s, w, p), j);
  }

  lemma LeaveForward(s: State, w: Who)
    requires PhaseOf(s, w) == Some(Unlocking)
    ensures Work(Leave(s, w)) < Work(s)
  {
    match w
    case TheReader =>
    case InnerOf(j) => OneJobForward(s, Leave(s, w), j);
    case OuterOf(j) => OneJobForward(s, Leave(s, w), j);
  }

  lemma PlacedAlike(s: State, w: Who)
    requires PhaseOf(s, w).Some?
    ensures Work(Placed(s, w)) == Work(s) && PhaseOf(Placed(s, w), w) == PhaseOf(s, w)
  {
    if !w.TheReader? {
      JobsUpdated(s.jobs, w.j, s.jobs[w.j].(at := Some(|s.out|)));
    }
  }

  lemma SenderForward(s: State, step: Step)
    requires Enabled(s, step) && BySender(step)
    ensures Work(Apply(s, step)) < Work(s)
  {
    match step
    case Acquire(w) => PhaseForward(s, w, HeadNext);
    case WriteHead(w, ok) =>
      if ok {
        PlacedAlike(s, w);
        PhaseForward(Placed(s, w), w, BodyNext);
      } else {
        PhaseForward(s, w, Unlocking);
      }
    case WriteBody(w, _) => PhaseForward(s, w, Unlocking);
    case Release(w) => LeaveForward(s, w);
  }

  lemma ReaderForward(s: State, step: Step)
    requires Enabled(s, step) && ByReader(step) && !step.ReadHead?
    ensures Work(Apply(s, step)) < Work(s)
  {
    match step
    case FailHead =>
    case Lookup =>
    case ReadBody(_) => assert Apply(s, step).jobs[..|s.jobs|] == s.jobs;
    case FailBody(_) =>
    case CloseCodec =>
  }

  lemma WorkStep(s: State, step: Step)
    requires Enabled(s, step) && !step.ReadHead?
    ensures Work(Apply(s, step)) < Work(s)
  {
    if ByReader(step) {
      ReaderForward(s, step);
    } else if BySender(step) {
      SenderForward(s, step);
    } else {
      HandlerForward(s, step);
    }
  }

  /** Once no request comes in, only boundedly many steps remain. */
  lemma {:induction false} BoundedWork(cfg: Config, before: seq<Step>, after: seq<Step>)
    requires Exec(cfg, before + after).Some?
    requires forall i :: 0 <= i < |after| ==> !after[i].ReadHead?
    ensures Exec(cfg, before).Some?
    ensures Work(Exec(cfg, before + after).value) + |after| <= Work(Exec(cfg, before).value)
  {
    if after == [] {
      assert before + after == before;
    } else {
      var rest, step := after[..|after| - 1], after[|after| - 1];
      assert (before + after)[..|before + after| - 1] == before + rest;
      BoundedWork(cfg, before, rest);
      WorkStep(Exec(cfg, before + rest).value, step);
    }
  }

  // ---------------------------------------------------------------------------------
  // The end

  /** Nothing is left to do but to read another request. */
  ghost predicate AtRest(s: State) {
    forall step: Step :: !step.ReadHead? ==> !Enabled(s, step)
  }

  /** The codec is closed and every handler has finished; the goroutine that called the service is
      gone, or blocked for ever on handing over when the timeout was faster. */
  ghost predicate AllOver(s: State) {
    && s.reader.Closed?
    && forall j :: 0 <= j < |s.jobs| ==>
         && s.jobs[j].outer.Finished?
         && s.jobs[j].inner == if s.jobs[j].setters == [ByOuter] then Offering else Exited
  }

  lemma ReaderAtRest(s: State)
    requires Inv(s) && AtRest(s)
    ensures s.reader.Draining? || s.reader.Closed?
  {
    assert !Enabled(s, FailHead) && !Enabled(s, Lookup) && !Enabled(s, ReadBody([]));
    if s.reader.Rejecting? {
      var step := SenderCanMove(s, TheReader);
    }
  }

  lemma JobAtRest(s: State, j: nat)
    requires Inv(s) && AtRest(s) && j < |s.jobs|
    ensures s.jobs[j].outer.Finished?
    ensures s.jobs[j].inner == if s.jobs[j].setters == [ByOuter] then Offering else Exited
  {
    assert !Enabled(s, Call(j, Fault("")));
    if !s.jobs[j].outer.Finished? {
      var step := HandlerCanMove(s, j);
    }
    assert JobOk(s.cfg, s.jobs[j]);
  }

  /** A schedule that goes on as long as it can, in which no further request is read and services
      return, ends; then every handler has finished and the codec is closed. */
  lemma HandlersFinish(cfg: Config, before: seq<Step>, after: seq<Step>)
    requires Exec(cfg, before + after).Some? && AtRest(Exec(cfg, before + after).value)
    requires forall i :: 0 <= i < |after| ==> !after[i].ReadHead?
    ensures Exec(cfg, before).Some? && |after| <= Work(Exec(cfg, before).value)
    ensures AllOver(Exec(cfg, before + after).value)
  {
    BoundedWork(cfg, before, after);
    InvHolds(cfg, before + after);
    var s := Exec(cfg, before + after).value;
    forall j | 0 <= j < |s.jobs|
      ensures s.jobs[j].outer.Finished?
      ensures s.jobs[j].inner == if s.jobs[j].setters == [ByOuter] then Offering else Exited
    {
      JobAtRest(s, j);
    }
    ReaderAtRest(s);
    assert !Enabled(s, CloseCodec);
  }
}
