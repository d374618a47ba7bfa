/** What becomes of the requests that the server reads, and what ends its reader and its connection. */
module RpcServerEnds {
  import opened Basics
  import opened RpcServer

  /** How many headers have been read. */
  function HeadsRead(steps: seq<Step>): nat {
    if steps == [] then 0
    else HeadsRead(steps[..|steps| - 1]) + if steps[|steps| - 1].ReadHead? then 1 else 0
  }

  /** How many items of rejections are on the wire. */
  function RejectedItems(tags: seq<Tag>): nat {
    if tags == [] then 0
    else RejectedItems(tags[..|tags| - 1]) + if tags[|tags| - 1].Rejected? then 1 else 0
  }

  /** Two for a request of which it is open what becomes of it, otherwise what is still to be written
      of its rejection. */
  function Owed(r: Reader): nat {
    match r
    case GotHead(_) => 2
    case GotService(_) => 2
    case Rejecting(_, _, phase) => if phase.Unlocking? then 0 else if phase.BodyNext? then 1 else 2
    case _ => 0
  }

  /** What is known of the requests whose headers have been read, counted in items of rejections. */
  function Accounted(s: State): nat {
    2 * |s.jobs| + RejectedItems(s.tags) + Owed(s.reader)
  }

  lemma {:induction false} OneTagMore(tags: seq<Tag>, tag: Tag)
    ensures RejectedItems(tags + [tag]) == RejectedItems(tags) + if tag.Rejected? then 1 else 0
  {
    assert (tags + [tag])[..|tags|] == tags;
  }

  /** What is owed when goroutine `w` has come to phase `p`. */
  lemma OwedAt(s: State, w: Who, p: Phase)
    requires PhaseOf(s, w).Some?
    ensures var s' := ToPhase(s, w, p);
            && |s'.jobs| == |s.jobs| && s'.tags == s.tags && s'.dead == s.dead
            && Owed(s'.reader) == if w.TheReader? then Owed(Rejecting(s.reader.h, s.reader.err, p)) else Owed(s.reader)
  {
  }

  /** A write puts one tag on the wire, and of a rejection one item less is owed. */
  lemma OneItem(s: State, step: Step)
    requires Enabled(s, step) && (step.WriteHead? || step.WriteBody?) && step.ok
    ensures var s' := Apply(s, step);
            && |s'.jobs| == |s.jobs| && s'.tags == s.tags + [TagOf(s, step.w)]
            && Owed(s.reader) == Owed(s'.reader) + if step.w.TheReader? then 1 else 0
  {
    match step
    case WriteHead(w, _) => OwedAt(Placed(s, w), w, BodyNext);
    case WriteBody(w, _) => OwedAt(s, w, Unlocking);
  }

  lemma AccountWrite(s: State, step: Step)
    requires Enabled(s, step) && (step.WriteHead? || step.WriteBody?) && step.ok
    ensures Accounted(Apply(s, step)) == Accounted(s)
  {
    OneItem(s, step);
    OneTagMore(s.tags, TagOf(s, step.w));
    assert TagOf(s, step.w).Rejected? <==> step.w.TheReader?;
  }

  lemma AccountSender(s: State, step: Step)
    requires Enabled(s, step) && BySender(step) && !Apply(s, step).dead
    ensures !s.dead && Accounted(Apply(s, step)) == Accounted(s)
  {
    match step
    case Acquire(w) => OwedAt(s, w, HeadNext);
    case Release(_) =>
    case _ => AccountWrite(s, step);
  }

  lemma AccountStep(s: State, step: Step)
    requires Enabled(s, step) && !BySender(step) && !Apply(s, step).dead
    ensures !s.dead && Accounted(Apply(s, step)) == Accounted(s) + if step.ReadHead? then 2 else 0
  {
    match step
    case ReadHead(_) =>
    case FailHead =>
    case Lookup =>
    case ReadBody(_) =>
    case FailBody(_) =>
    case _ =>
  }

  /** No request is lost: while nothing has failed to be written, every request whose header was read
      has been accepted for handling, or has its whole rejection on the wire, but for the one that the
      reader is busy with. */
  lemma {:induction false} RequestsAreAccountedFor(cfg: Config, steps: seq<Step>)
    requires Exec(cfg, steps).Some? && !Exec(cfg, steps).value.dead
    ensures var s := Exec(cfg, steps).value;
            2 * HeadsRead(steps) == 2 * |s.jobs| + RejectedItems(s.tags) + Owed(s.reader)
  {
    if steps != [] {
      var before, step := steps[..|steps| - 1], steps[|steps| - 1];
      if BySender(step) {
        AccountSender(Exec(cfg, before).value, step);
      } else {
        AccountStep(Exec(cfg, before).value, step);
      }
      RequestsAreAccountedFor(cfg, before);
    }
  }

  predicate Stopped(r: Reader) {
    r.Draining? || r.Closed?
  }

  lemma StopStep(s: State, step: Step)
    requires Enabled(s, step)
    ensures Stopped(Apply(s, step).reader) <==> Stopped(s.reader) || step.FailHead?
  {
    match step
    case ReadHead(_) =>
    case FailHead =>
    case Lookup =>
    case ReadBody(_) =>
    case FailBody(_) =>
    case Release(_) =>
    case WriteHead(_, _) =>
    case WriteBody(_, _) =>
    case _ =>
  }

  /** The reader stops exactly when a header cannot be read: no request that it has to reject ends the
      connection. */
  lemma {:induction false} ReaderStopsIff(cfg: Config, steps: seq<Step>)
    requires Exec(cfg, steps).Some?
    ensures Stopped(Exec(cfg, steps).value.reader) <==> FailHead in steps
  {
    if steps != [] {
      var before, step := steps[..|steps| - 1], steps[|steps| - 1];
      ReaderStopsIff(cfg, before);
      StopStep(Exec(cfg, before).value, step);
      assert forall x :: x in steps <==> x in before || x == step;
    }
  }

  predicate FailsToWrite(step: Step) {
    (step.WriteHead? || step.WriteBody?) && !step.ok
  }

  lemma DeadStep(s: State, step: Step)
    requires Enabled(s, step)
    ensures Apply(s, step).dead <==> s.dead || FailsToWrite(step) || step.CloseCodec?
  {
    match step
    case ReadHead(_) =>
    case Lookup =>
    case Acquire(_) =>
    case Release(_) =>
    case WriteHead(_, _) =>
    case WriteBody(_, _) =>
    case _ =>
  }

  /** The connection fails exactly when a write has failed or the server has closed it. */
  lemma {:induction false} DeadIff(cfg: Config, steps: seq<Step>)
    requires Exec(cfg, steps).Some?
    ensures Exec(cfg, steps).value.dead <==> exists step :: step in steps && (FailsToWrite(step) || step.CloseCodec?)
  {
    if steps != [] {
      var before, step := steps[..|steps| - 1], steps[|steps| - 1];
      DeadIff(cfg, before);
      DeadStep(Exec(cfg, before).value, step);
      assert forall x :: x in steps <==> x in before || x == step;
    }
  }

  // ---------------------------------------------------------------------------------
  // Timeouts and calls

  /** The handler has given up waiting. */
  predicate TimedOut(job: Job) {
    job.outer.Expired? || ByOuter in job.setters
  }

  /** The service has not been called yet exactly while there is no result. */
  predicate CallOk(job: Job) {
    job.inner.Calling? <==> job.result == None
  }

  ghost predicate Unmoved(job: Job, job': Job) {
    && TimedOut(job') == TimedOut(job) && job'.result == job.result
    && job'.inner.Calling? == job.inner.Calling?
  }

  lemma PhaseUnmoved(s: State, w: Who, p: Phase, j: nat)
    requires PhaseOf(s, w).Some? && j < |s.jobs|
    ensures |ToPhase(s, w, p).jobs| == |s.jobs| && Unmoved(s.jobs[j], ToPhase(s, w, p).jobs[j])
  {
  }

  lemma PlacedUnmoved(s: State, w: Who, j: nat)
    requires PhaseOf(s, w).Some? && j < |s.jobs|
    ensures |Placed(s, w).jobs| == |s.jobs| && Unmoved(s.jobs[j], Placed(s, w).jobs[j])
    ensures PhaseOf(Placed(s, w), w).Some?
  {
  }

  lemma LeaveUnmoved(s: State, w: Who, j: nat)
    requires PhaseOf(s, w).Some? && j < |s.jobs|
    ensures |Leave(s, w).jobs| == |s.jobs| && Unmoved(s.jobs[j], Leave(s, w).jobs[j])
  {
  }

  lemma FateInSender(s: State, step: Step, j: nat)
    requires Enabled(s, step) && BySender(step) && j < |s.jobs|
    ensures |Apply(s, step).jobs| == |s.jobs| && Unmoved(s.jobs[j], Apply(s, step).jobs[j])
  {
    match step
    case Acquire(w) => PhaseUnmoved(s, w, HeadNext, j);
    case WriteHead(w, ok) =>
      PlacedUnmoved(s, w, j);
      PhaseUnmoved(Placed(s, w), w, BodyNext, j);
      PhaseUnmoved(s, w, Unlocking, j);
    case WriteBody(w, ok) => PhaseUnmoved(s, w, Unlocking, j);
    case Release(w) => LeaveUnmoved(s, w, j);
  }

  lemma FateInReader(s: State, step: Step, j: nat)
    requires Enabled(s, step) && ByReader(step) && j < |s.jobs|
    ensures j < |Apply(s, step).jobs| && Apply(s, step).jobs[j] == s.jobs[j]
  {
    match step
    case ReadHead(_) =>
    case FailHead =>
    case Lookup =>
    case ReadBody(_) =>
    case FailBody(_) =>
    case CloseCodec =>
  }

  /** The steps of the two goroutines of a request outside `sendResponse`. */
  lemma FateInJob(s: State, step: Step, j: nat)
    requires Enabled(s, step) && !BySender(step) && !ByReader(step) && j < |s.jobs| && CallOk(s.jobs[j])
    ensures |Apply(s, step).jobs| == |s.jobs| && CallOk(Apply(s, step).jobs[j])
    ensures TimedOut(Apply(s, step).jobs[j]) <==> TimedOut(s.jobs[j]) || step == Expire(j)
    ensures Apply(s, step).jobs[j].result == if step.Call? && step.j == j then Some(step.out) else s.jobs[j].result
    ensures step.Call? && step.j == j ==> s.jobs[j].result == None
  {
    match step
    case Call(_, _) =>
    case HandOver(_) =>
    case Answer(_) =>
    case Expire(_) =>
    case GiveUp(_) =>
    case Sent(_) =>
    case Finish(_) =>
  }

  lemma FateStep(s: State, step: Step, j: nat, out: Outcome)
    requires Enabled(s, step) && j < |s.jobs| && CallOk(s.jobs[j])
    ensures j < |Apply(s, step).jobs| && CallOk(Apply(s, step).jobs[j])
    ensures TimedOut(Apply(s, step).jobs[j]) <==> TimedOut(s.jobs[j]) || step == Expire(j)
    ensures Apply(s, step).jobs[j].result == Some(out) <==> s.jobs[j].result == Some(out) || step == Call(j, out)
  {
    if BySender(step) {
      FateInSender(s, step, j);
    } else if ByReader(step) {
      FateInReader(s, step, j);
    } else {
      FateInJob(s, step, j);
    }
  }

  lemma JobsStay(s: State, step: Step)
    requires Enabled(s, step)
    ensures |Apply(s, step).jobs| == |s.jobs| + if step.ReadBody? then 1 else 0
  {
    match step
    case ReadBody(_) =>
    case Acquire(_) =>
    case WriteHead(_, _) =>
    case WriteBody(_, _) =>
    case Release(_) =>
    case _ =>
  }

  lemma NewJobs(s: State, step: Step, j: nat)
    requires Enabled(s, step) && |s.jobs| <= j < |Apply(s, step).jobs|
    ensures step.ReadBody? && var job := Apply(s, step).jobs[j]; CallOk(job) && !TimedOut(job) && job.result == None
  {
    JobsStay(s, step);
  }

  lemma {:induction false} NothingYet(cfg: Config, steps: seq<Step>, j: nat, out: Outcome)
    requires Exec(cfg, steps).Some? && j >= |Exec(cfg, steps).value.jobs|
    ensures Expire(j) !in steps && Call(j, out) !in steps
  {
    if steps != [] {
      var before, step := steps[..|steps| - 1], steps[|steps| - 1];
      JobsStay(Exec(cfg, before).value, step);
      NothingYet(cfg, before, j, out);
      assert forall x :: x in steps <==> x in before || x == step;
    }
  }

  /** A request times out exactly when its own limit is reached, and its result is what its own call
      of the service gave, the only one there is. */
  lemma {:induction false} FateIff(cfg: Config, steps: seq<Step>, j: nat, out: Outcome)
    requires Exec(cfg, steps).Some? && j < |Exec(cfg, steps).value.jobs|
    ensures var job := Exec(cfg, steps).value.jobs[j];
            && CallOk(job)
            && (job.outer.Expired? || ByOuter in job.setters <==> Expire(j) in steps)
            && (job.result == Some(out) <==> Call(j, out) in steps)
  {
    var before, step := steps[..|steps| - 1], steps[|steps| - 1];
    assert forall x :: x in steps <==> x in before || x == step;
    if j < |Exec(cfg, before).value.jobs| {
      FateIff(cfg, before, j, out);
      FateStep(Exec(cfg, before).value, step, j, out);
    } else {
      NothingYet(cfg, before, j, out);
      NewJobs(Exec(cfg, before).value, step, j);
    }
  }
}
