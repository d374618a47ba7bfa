/** One connection of the RPC server as a state machine: the read loop of `ServerCodec` and, for
    every accepted request, the two goroutines of `handleRequest`. Each channel rendezvous, each
    lock operation and each item written or read is one step; a timeout may fire at any time. */
module RpcServer {
  import opened Basics
  import opened RpcLookup
  import opened RpcWire

  const INVALID: Bytes := []

  /** What a service method gives back. */
  datatype Outcome = Reply(b: Bytes) | Fault(msg: string)

  /** `services` maps service names to their methods. A `timeout` of zero means no limit;
      `limit` is how the error text prints it. */
  datatype Config = Config(services: map<string, set<string>>, timeout: nat, limit: string)

  /** Where a goroutine is inside `sendResponse`. */
  datatype Phase = NeedLock | HeadNext | BodyNext | Unlocking

  /** The goroutine that runs `handleRequest`. */
  datatype Outer = Selecting | AwaitSent | Expired | Sending(phase: Phase) | Finishing | Finished

  /** The goroutine it starts, which calls the service. */
  datatype Inner = Calling | Offering | Called | Answering(phase: Phase) | OfferSent | Exited

  datatype Side = ByInner | ByOuter

  /** An accepted request. `err` is `req.h.Err`, `body` what is given to `sendResponse`, `result`
      what the call of the service gave. The rest only observes: who wrote `err`, how many responses
      were begun, and where the response's header lies in `out`. */
  datatype Job = Job(
    h: Header, args: Bytes, outer: Outer, inner: Inner, err: string, body: Bytes,
    setters: seq<Side>, result: Option<Outcome>, begun: nat, at: Option<nat>)

  datatype Reader =
    | AtHead
    | GotHead(h: Header)
    | GotService(h: Header)
    | Rejecting(h: Header, err: string, phase: Phase)
    | Draining
    | Closed

  datatype Who = TheReader | InnerOf(j: nat) | OuterOf(j: nat)

  /** Whose response an item of `out` belongs to. */
  datatype Tag = ForJob(j: nat) | Rejected(h: Header, err: string)

  /** `tags` labels the items of `out`; `read` counts the items read, `missed` the lookups that failed,
      and `undecoded` holds the headers whose bodies could not be read, with the error. They only
      observe. `dead`: nothing more reaches the wire. */
  datatype State = State(
    cfg: Config, reader: Reader, jobs: seq<Job>, lock: Option<Who>, dead: bool,
    out: seq<Item>, tags: seq<Tag>, read: nat, missed: nat, undecoded: set<(Header, string)>)

  function Init(cfg: Config): State {
    State(cfg, AtHead, [], None, false, [], [], 0, 0, {})
  }

  datatype Step =
    | ReadHead(h: Header)
    | FailHead
    | Lookup
    | ReadBody(b: Bytes)
    | FailBody(err: string)
    | Call(j: nat, out: Outcome)
    | HandOver(j: nat)
    | Answer(j: nat)
    | Expire(j: nat)
    | GiveUp(j: nat)
    | Acquire(w: Who)
    | WriteHead(w: Who, ok: bool)
    | WriteBody(w: Who, ok: bool)
    | Release(w: Who)
    | Sent(j: nat)
    | Finish(j: nat)
    | CloseCodec

  predicate Pair(s: State, j: nat, outer: Outer, inner: Inner) {
    j < |s.jobs| && s.jobs[j].outer == outer && s.jobs[j].inner == inner
  }

  /** The phase of `sendResponse` that goroutine `w` is in. */
  function PhaseOf(s: State, w: Who): Option<Phase> {
    match w
    case TheReader => if s.reader.Rejecting? then Some(s.reader.phase) else None
    case InnerOf(j) => if j < |s.jobs| && s.jobs[j].inner.Answering? then Some(s.jobs[j].inner.phase) else None
    case OuterOf(j) => if j < |s.jobs| && s.jobs[j].outer.Sending? then Some(s.jobs[j].outer.phase) else None
  }

  predicate Enabled(s: State, step: Step) {
    match step
    case ReadHead(_) => s.reader.AtHead?
    case FailHead => s.reader.AtHead?
    case Lookup => s.reader.GotHead?
    case ReadBody(_) => s.reader.GotService?
    case FailBody(err) => s.reader.GotService? && err != ""
    case Call(j, _) => j < |s.jobs| && s.jobs[j].inner.Calling?
    case HandOver(j) => Pair(s, j, Selecting, Offering)
    case Answer(j) => j < |s.jobs| && s.jobs[j].inner.Called? && s.jobs[j].result.Some?
    case Expire(j) => j < |s.jobs| && s.jobs[j].outer.Selecting? && s.cfg.timeout != 0
    case GiveUp(j) => j < |s.jobs| && s.jobs[j].outer.Expired?
    case Acquire(w) => PhaseOf(s, w) == Some(NeedLock) && s.lock == None
    case WriteHead(w, ok) => PhaseOf(s, w) == Some(HeadNext) && (ok ==> !s.dead)
    case WriteBody(w, ok) => PhaseOf(s, w) == Some(BodyNext) && (ok ==> !s.dead)
    case Release(w) => PhaseOf(s, w) == Some(Unlocking)
    case Sent(j) => Pair(s, j, AwaitSent, OfferSent)
    case Finish(j) => j < |s.jobs| && s.jobs[j].outer.Finishing?
    case CloseCodec => s.reader.Draining? && forall j :: 0 <= j < |s.jobs| ==> s.jobs[j].outer.Finished?
  }

  function Put(s: State, j: nat, job: Job): State
    requires j < |s.jobs|
  {
    s.(jobs := s.jobs[j := job])
  }

  function ToPhase(s: State, w: Who, p: Phase): State
    requires PhaseOf(s, w).Some?
  {
    match w
    case TheReader => s.(reader := s.reader.(phase := p))
    case InnerOf(j) => Put(s, j, s.jobs[j].(inner := Answering(p)))
    case OuterOf(j) => Put(s, j, s.jobs[j].(outer := Sending(p)))
  }

  /** `sendResponse` returns. */
  function Leave(s: State, w: Who): State
    requires PhaseOf(s, w).Some?
  {
    match w
    case TheReader => s.(reader := AtHead)
    case InnerOf(j) => Put(s, j, s.jobs[j].(inner := OfferSent))
    case OuterOf(j) => Put(s, j, s.jobs[j].(outer := Finishing))
  }

  /** The response that goroutine `w` writes: its tag, header and body. */
  function TagOf(s: State, w: Who): Tag
    requires PhaseOf(s, w).Some?
  {
    if w.TheReader? then Rejected(s.reader.h, s.reader.err) else ForJob(w.j)
  }

  function HeadFor(jobs: seq<Job>, tag: Tag): Item
    requires tag.ForJob? ==> tag.j < |jobs|
  {
    match tag
    case ForJob(j) => Head(jobs[j].h.(err := jobs[j].err))
    case Rejected(h, err) => Head(h.(err := err))
  }

  function BodyFor(jobs: seq<Job>, tag: Tag): Item
    requires tag.ForJob? ==> tag.j < |jobs|
  {
    match tag
    case ForJob(j) => Body(jobs[j].body)
    case Rejected(_, _) => Body(INVALID)
  }

  function Written(s: State, item: Item, tag: Tag): State {
    s.(out := s.out + [item], tags := s.tags + [tag])
  }

  /** Remember where the header of a job's response went. */
  function Placed(s: State, w: Who): State
    requires PhaseOf(s, w).Some?
  {
    if w.TheReader? then s else Put(s, w.j, s.jobs[w.j].(at := Some(|s.out|)))
  }

  function TimeoutText(cfg: Config): string {
    "rpc server: request handle time out, expected within " + cfg.limit
  }

  function Apply(s: State, step: Step): State
    requires Enabled(s, step)
  {
    match step
    case ReadHead(h) => s.(reader := GotHead(h), read := s.read + 1)
    case FailHead => s.(reader := Draining)
    case Lookup =>
      var h := s.reader.h;
      var e := FindError(s.cfg.services, h.serviceMethod);
      if e.Some? then s.(reader := Rejecting(h, e.value, NeedLock), missed := s.missed + 1)
      else s.(reader := GotService(h))
    case ReadBody(b) =>
      var h := s.reader.h;
      s.(reader := AtHead, read := s.read + 1,
         jobs := s.jobs + [Job(h, b, Selecting, Calling, h.err, [], [], None, 0, None)])
    case FailBody(err) =>
      s.(reader := Rejecting(s.reader.h, err, NeedLock), read := s.read + 1,
         undecoded := s.undecoded + {(s.reader.h, err)})
    case Call(j, out) => Put(s, j, s.jobs[j].(inner := Offering, result := Some(out)))
    case HandOver(j) => Put(s, j, s.jobs[j].(outer := AwaitSent, inner := Called))
    case Answer(j) =>
      var job := s.jobs[j].(inner := Answering(NeedLock), begun := s.jobs[j].begun + 1);
      Put(s, j, match job.result.value
        case Reply(b) => job.(body := b)
        case Fault(msg) => job.(body := INVALID, err := msg, setters := job.setters + [ByInner]))
    case Expire(j) => Put(s, j, s.jobs[j].(outer := Expired))
    case GiveUp(j) =>
      var job := s.jobs[j];
      Put(s, j, job.(outer := Sending(NeedLock), begun := job.begun + 1,
                     body := INVALID, err := TimeoutText(s.cfg), setters := job.setters + [ByOuter]))
    case Acquire(w) => ToPhase(s, w, HeadNext).(lock := Some(w))
    case WriteHead(w, ok) =>
      if ok then Written(ToPhase(Placed(s, w), w, BodyNext), HeadFor(s.jobs, TagOf(s, w)), TagOf(s, w))
      else ToPhase(s, w, Unlocking).(dead := true)
    case WriteBody(w, ok) =>
      if ok then Written(ToPhase(s, w, Unlocking), BodyFor(s.jobs, TagOf(s, w)), TagOf(s, w))
      else ToPhase(s, w, Unlocking).(dead := true)
    case Release(w) => Leave(s, w).(lock := None)
    case Sent(j) => Put(s, j, s.jobs[j].(outer := Finishing, inner := Exited))
    case Finish(j) => Put(s, j, s.jobs[j].(outer := Finished))
    case CloseCodec => s.(reader := Closed, dead := true)
  }

  function Exec(cfg: Config, steps: seq<Step>): Option<State> {
    if steps == [] then Some(Init(cfg))
    else match Exec(cfg, steps[..|steps| - 1])
      case None => None
      case Some(s) =>
        var step := steps[|steps| - 1];
        if Enabled(s, step) then Some(Apply(s, step)) else None
  }

  // ---------------------------------------------------------------------------------
  // The invariant

  /** What a begun response says: the service's outcome, or the timeout. */
  ghost predicate Says(cfg: Config, job: Job) {
    || (job.setters == [ByOuter] && job.err == TimeoutText(cfg) && job.body == INVALID)
    || (job.result.Some? &&
        match job.result.value
        case Reply(b) => job.setters == [] && job.err == job.h.err && job.body == b
        case Fault(msg) => job.setters == [ByInner] && job.err == msg && job.body == INVALID)
  }

  predicate InService(inner: Inner) {
    inner.Calling? || inner.Offering?
  }

  /** The response is the service's, not the timeout's. */
  predicate ByService(job: Job) {
    job.setters == [] || job.setters == [ByInner]
  }

  predicate Answered(job: Job) {
    job.begun == 1 && if ByService(job) then job.inner.Exited? else InService(job.inner)
  }

  /** The two goroutines of a request are in step, and only one of them ever answers. */
  ghost predicate JobOk(cfg: Config, job: Job) {
    && (match job.outer
        case Selecting => InService(job.inner) && job.begun == 0
        case Expired => InService(job.inner) && job.begun == 0
        case AwaitSent =>
          || (job.inner.Called? && job.begun == 0)
          || (job.begun == 1 && ByService(job) && (job.inner.Answering? || job.inner.OfferSent?))
        case Sending(_) => InService(job.inner) && job.begun == 1 && job.setters == [ByOuter]
        case Finishing => Answered(job)
        case Finished => Answered(job))
    && (!job.inner.Calling? ==> job.result.Some?)
    && (job.outer.Expired? || job.setters == [ByOuter] ==> cfg.timeout != 0)
    && (job.begun == 0 ==> job.setters == [] && job.err == job.h.err && job.at == None)
    && (job.begun == 1 ==> Says(cfg, job))
  }

  predicate Holding(s: State, w: Who) {
    var p := PhaseOf(s, w);
    p.Some? && !p.value.NeedLock?
  }

  ghost predicate LockOk(s: State) {
    && (forall w :: Holding(s, w) ==> s.lock == Some(w))
    && (s.lock.Some? ==> Holding(s, s.lock.value))
  }

  /** The phase of the one `sendResponse` a job has begun, `Unlocking` when it is over. */
  function SendPhase(job: Job): Phase {
    if job.inner.Answering? then job.inner.phase else if job.outer.Sending? then job.outer.phase else Unlocking
  }

  /** How far the response of job `j` has come on the wire. */
  ghost predicate PlaceOk(s: State, j: nat)
    requires j < |s.jobs|
  {
    var job := s.jobs[j];
    && (job.at.Some? ==>
          job.at.value < |s.out| == |s.tags| && job.at.value % 2 == 0 && s.tags[job.at.value] == ForJob(j))
    && (job.begun == 1 ==>
          match SendPhase(job)
          case NeedLock => job.at == None
          case HeadNext => job.at == None
          case BodyNext => job.at.Some? && (!s.dead ==> job.at.value + 1 == |s.out|)
          case Unlocking => !s.dead ==> job.at.Some? && job.at.value + 1 < |s.out|)
  }

  ghost predicate FrameOk(s: State, i: nat)
    requires i < |s.out| == |s.tags|
  {
    var tag := s.tags[i];
    && (if tag.ForJob? then tag.j < |s.jobs| && s.jobs[tag.j].begun == 1 else tag.err != "")
    && if i % 2 == 0 then
         && s.out[i] == HeadFor(s.jobs, tag)
         && (tag.ForJob? ==> s.jobs[tag.j].at == Some(i))
       else
         s.out[i] == BodyFor(s.jobs, tag) && s.tags[i - 1] == tag
  }

  /** An odd number of items: only while the holder of `sending` is between header and body. */
  ghost predicate WriterOk(s: State) {
    !s.dead ==>
      && (|s.out| % 2 == 1 <==> s.lock.Some? && PhaseOf(s, s.lock.value) == Some(BodyNext))
      && (|s.out| % 2 == 1 ==> |s.tags| == |s.out| && s.tags[|s.out| - 1] == TagOf(s, s.lock.value))
  }

  /** Failed lookups leave their body behind, and nothing else does. */
  ghost predicate ReaderOk(s: State) {
    match s.reader
    case AtHead => s.read % 2 == s.missed % 2
    case GotHead(_) => s.read % 2 != s.missed % 2
    case GotService(_) => s.read % 2 != s.missed % 2
    case Rejecting(_, err, _) => s.read % 2 == s.missed % 2 && err != ""
    case Draining => true
    case Closed => s.dead && forall j :: 0 <= j < |s.jobs| ==> s.jobs[j].outer.Finished?
  }

  ghost predicate Inv(s: State) {
    && (forall j :: 0 <= j < |s.jobs| ==> JobOk(s.cfg, s.jobs[j]))
    && (forall j :: 0 <= j < |s.jobs| ==> PlaceOk(s, j))
    && |s.out| == |s.tags|
    && (forall i :: 0 <= i < |s.out| ==> FrameOk(s, i))
    && LockOk(s) && WriterOk(s) && ReaderOk(s)
  }

  predicate ByReader(step: Step) {
    step.ReadHead? || step.FailHead? || step.Lookup? || step.ReadBody? || step.FailBody? || step.CloseCodec?
  }

  predicate BySender(step: Step) {
    step.Acquire? || step.WriteHead? || step.WriteBody? || step.Release?
  }

  /** The steps of a request's goroutines outside `sendResponse`. */
  predicate ByHandler(step: Step) {
    !ByReader(step) && !BySender(step)
  }

  predicate Writes(step: Step) {
    (step.WriteHead? || step.WriteBody?) && step.ok
  }

  /** What a goroutine of request `j` does leaves the reader alone, and only its responses go out. */
  ghost predicate OnlyJobs(s: State, s': State) {
    && s'.cfg == s.cfg && s'.reader == s.reader && s'.read == s.read && s'.missed == s.missed
    && s'.undecoded == s.undecoded
    && SameRequests(s, s') && s.tags <= s'.tags && s.out <= s'.out
    && forall i :: |s.tags| <= i < |s'.tags| ==> s'.tags[i].ForJob?
  }

  ghost predicate SameRequests(s: State, s': State) {
    && |s'.jobs| == |s.jobs|
    && forall j :: 0 <= j < |s.jobs| ==> s'.jobs[j].h == s.jobs[j].h && s'.jobs[j].args == s.jobs[j].args
  }

  /** A rejection moves on inside `sendResponse`, or leaves it. */
  ghost predicate OnlyRejection(s: State, s': State) {
    && s'.cfg == s.cfg && s'.read == s.read && s'.missed == s.missed && s'.jobs == s.jobs
    && s'.undecoded == s.undecoded
    && s.reader.Rejecting?
    && (s'.reader == AtHead ||
        (s'.reader.Rejecting? && s'.reader.h == s.reader.h && s'.reader.err == s.reader.err &&
         (s'.reader.phase == HeadNext ==> s.reader.phase == NeedLock) && s'.reader.phase != NeedLock))
  }

  lemma HandlerKeeps(s: State, step: Step)
    requires Enabled(s, step) && ByHandler(step)
    ensures OnlyJobs(s, Apply(s, step))
  {
    match step
    case Call(_, _) =>
    case HandOver(_) =>
    case Answer(_) =>
    case Expire(_) =>
    case GiveUp(_) =>
    case Sent(_) =>
    case Finish(_) =>
  }

  lemma ResponseKeeps(s: State, step: Step)
    requires Enabled(s, step) && BySender(step) && !step.w.TheReader?
    ensures OnlyJobs(s, Apply(s, step))
  {
    match step
    case Acquire(w) => PhaseKeeps(s, w, HeadNext);
    case WriteHead(w, ok) => PhaseKeeps(Placed(s, w), w, BodyNext); PhaseKeeps(s, w, Unlocking);
    case WriteBody(w, ok) => PhaseKeeps(s, w, Unlocking);
    case Release(w) =>
  }

  lemma PhaseKeeps(s: State, w: Who, p: Phase)
    requires PhaseOf(s, w).Some? && !w.TheReader?
    ensures OnlyJobs(s, ToPhase(s, w, p)) && ToPhase(s, w, p).tags == s.tags && ToPhase(s, w, p).out == s.out
  {
  }

  lemma RejectionKeeps(s: State, step: Step)
    requires Enabled(s, step) && BySender(step) && step.w.TheReader?
    ensures OnlyRejection(s, Apply(s, step))
    ensures Apply(s, step).tags == if Writes(step) then s.tags + [Rejected(s.reader.h, s.reader.err)] else s.tags
    ensures s.out <= Apply(s, step).out
  {
    match step
    case Acquire(_) =>
    case WriteHead(_, _) =>
    case WriteBody(_, _) =>
    case Release(_) =>
  }

  /** The wire only grows, and the configuration stays. */
  lemma WireGrows(s: State, step: Step)
    requires Enabled(s, step)
    ensures s.out <= Apply(s, step).out && Apply(s, step).cfg == s.cfg
  {
    if BySender(step) {
      if step.w.TheReader? {
        RejectionKeeps(s, step);
      } else {
        ResponseKeeps(s, step);
      }
    } else if !ByReader(step) {
      HandlerKeeps(s, step);
    } else {
      match step
      case ReadHead(_) =>
      case FailHead =>
      case Lookup =>
      case ReadBody(_) =>
      case FailBody(_) =>
      case CloseCodec =>
    }
  }

  /** The steps of the read loop that leave jobs alone. */
  lemma InvLoop(s: State, step: Step)
    requires Inv(s) && Enabled(s, step)
    requires step.ReadHead? || step.FailHead? || step.Lookup? || step.FailBody?
    ensures Inv(Apply(s, step))
  {
    match step
    case ReadHead(_) => InvElsewhere(s, Apply(s, step));
    case FailHead => InvElsewhere(s, Apply(s, step));
    case Lookup => InvElsewhere(s, Apply(s, step));
    case FailBody(_) => InvElsewhere(s, Apply(s, step));
  }

  /** A change of the reader that neither takes nor gives back the lock. */
  lemma InvElsewhere(s: State, s': State)
    requires Inv(s) && s'.cfg == s.cfg && s'.jobs == s.jobs && s'.lock == s.lock
    requires s'.out == s.out && s'.tags == s.tags && (s'.dead == s.dead || s'.dead)
    requires !Holding(s, TheReader) && !Holding(s', TheReader) && ReaderOk(s')
    ensures Inv(s')
  {
    forall j | 0 <= j < |s'.jobs| ensures PlaceOk(s', j) {
      assert PlaceOk(s, j);
    }
    forall i | 0 <= i < |s'.out| ensures FrameOk(s', i) {
      assert FrameOk(s, i);
    }
    forall w ensures Holding(s', w) == Holding(s, w) {
    }
  }

  lemma InvClose(s: State)
    requires Inv(s) && Enabled(s, CloseCodec)
    ensures Inv(Apply(s, CloseCodec))
  {
    InvElsewhere(s, Apply(s, CloseCodec));
  }

  lemma InvAccept(s: State, b: Bytes)
    requires Inv(s) && Enabled(s, ReadBody(b))
    ensures Inv(Apply(s, ReadBody(b)))
  {
    var s' := Apply(s, ReadBody(b));
    forall j | 0 <= j < |s'.jobs| ensures PlaceOk(s', j) {
      assert j < |s.jobs| ==> PlaceOk(s, j);
    }
    forall i | 0 <= i < |s'.out| ensures FrameOk(s', i) {
      assert FrameOk(s, i);
    }
    forall w ensures Holding(s', w) == Holding(s, w) {
    }
  }

  /** Only job `j` changes, and it neither takes nor gives back the lock nor writes: it keeps the
      response it has begun, or begins one that waits for the lock. */
  ghost predicate JobMoves(s: State, s': State, j: nat, job': Job) {
    && j < |s.jobs| && s' == Put(s, j, job') && JobOk(s.cfg, job')
    && var job := s.jobs[j];
    && job'.h == job.h && job'.at == job.at
    && (job.begun == 1 ==> job'.begun == 1 && job'.err == job.err && job'.body == job.body
                           && SendPhase(job') == SendPhase(job))
    && (job.begun == 0 && job'.begun == 1 ==> SendPhase(job') == NeedLock)
    && InnerStays(job, job') && OuterStays(job, job')
    && (job.outer.Finished? ==> job'.outer.Finished?)
  }

  /** Inside `sendResponse` the goroutine that called the service stays where it is; it may get in,
      to wait for the lock. */
  predicate InnerStays(job: Job, job': Job) {
    && (job'.inner.Answering? && !job'.inner.phase.NeedLock? ==> job'.inner == job.inner)
    && (job.inner.Answering? ==> job'.inner == job.inner)
  }

  predicate OuterStays(job: Job, job': Job) {
    && (job'.outer.Sending? && !job'.outer.phase.NeedLock? ==> job'.outer == job.outer)
    && (job.outer.Sending? ==> job'.outer == job.outer)
  }

  lemma InvMove(s: State, s': State, j: nat, job': Job)
    requires Inv(s) && JobMoves(s, s', j, job')
    ensures Inv(s')
  {
    forall i | 0 <= i < |s'.jobs| ensures PlaceOk(s', i) {
      PlaceMoved(s, s', j, job', i);
    }
    forall i | 0 <= i < |s'.out| ensures FrameOk(s', i) {
      FrameMoved(s, s', j, job', i);
    }
    LockMoved(s, s', j, job');
  }

  lemma LockMoved(s: State, s': State, j: nat, job': Job)
    requires LockOk(s) && WriterOk(s) && ReaderOk(s) && JobMoves(s, s', j, job')
    ensures LockOk(s') && WriterOk(s') && ReaderOk(s')
  {
    forall w ensures Holding(s', w) == Holding(s, w) && (Holding(s, w) ==> PhaseOf(s', w) == PhaseOf(s, w)) {
      PhaseMoved(s, s', j, job', w);
    }
    assert s.lock.Some? ==> Holding(s, s.lock.value);
  }

  lemma PhaseMoved(s: State, s': State, j: nat, job': Job, w: Who)
    requires j < |s.jobs| && s' == Put(s, j, job')
    requires InnerStays(s.jobs[j], job') && OuterStays(s.jobs[j], job')
    ensures Holding(s', w) == Holding(s, w)
    ensures Holding(s, w) ==> PhaseOf(s', w) == PhaseOf(s, w)
  {
    if !w.TheReader? && w.j != j {
      assert w.j < |s.jobs| ==> s'.jobs[w.j] == s.jobs[w.j];
    }
  }

  lemma PlaceMoved(s: State, s': State, j: nat, job': Job, i: nat)
    requires Inv(s) && JobMoves(s, s', j, job') && i < |s.jobs|
    ensures PlaceOk(s', i)
  {
    assert PlaceOk(s, i) && JobOk(s.cfg, s.jobs[j]);
  }

  lemma FrameMoved(s: State, s': State, j: nat, job': Job, i: nat)
    requires Inv(s) && JobMoves(s, s', j, job') && i < |s.out|
    ensures FrameOk(s', i)
  {
    assert FrameOk(s, i) && JobOk(s.cfg, s.jobs[j]);
  }

  lemma ServiceMoves(s: State, step: Step)
    requires Enabled(s, step) && (step.Call? || step.HandOver?) && JobOk(s.cfg, s.jobs[step.j])
    ensures JobMoves(s, Apply(s, step), step.j, Apply(s, step).jobs[step.j])
  {
    match step
    case Call(_, _) =>
    case HandOver(_) =>
  }

  lemma SentMoves(s: State, j: nat)
    requires Enabled(s, Sent(j)) && JobOk(s.cfg, s.jobs[j])
    ensures JobMoves(s, Apply(s, Sent(j)), j, Apply(s, Sent(j)).jobs[j])
  {
  }

  lemma FinishMoves(s: State, j: nat)
    requires Enabled(s, Finish(j)) && JobOk(s.cfg, s.jobs[j])
    ensures JobMoves(s, Apply(s, Finish(j)), j, Apply(s, Finish(j)).jobs[j])
  {
    FinishedOk(s.cfg, s.jobs[j]);
  }

  lemma FinishedOk(cfg: Config, job: Job)
    requires JobOk(cfg, job) && job.outer.Finishing?
    ensures JobOk(cfg, job.(outer := Finished)) && SendPhase(job.(outer := Finished)) == SendPhase(job)
  {
    assert Answered(job);
  }

  lemma AnswerMoves(s: State, j: nat)
    requires Enabled(s, Answer(j)) && JobOk(s.cfg, s.jobs[j])
    ensures JobMoves(s, Apply(s, Answer(j)), j, Apply(s, Answer(j)).jobs[j])
  {
  }

  lemma TimeoutMoves(s: State, step: Step)
    requires Enabled(s, step) && (step.Expire? || step.GiveUp?) && JobOk(s.cfg, s.jobs[step.j])
    ensures JobMoves(s, Apply(s, step), step.j, Apply(s, step).jobs[step.j])
  {
    match step
    case Expire(_) =>
    case GiveUp(_) =>
  }

  lemma InvHandler(s: State, step: Step)
    requires Inv(s) && Enabled(s, step) && ByHandler(step)
    ensures Inv(Apply(s, step))
  {
    var s' := Apply(s, step);
    assert JobMoves(s, s', step.j, s'.jobs[step.j]) by {
      match step
      case Call(_, _) => ServiceMoves(s, step);
      case HandOver(_) => ServiceMoves(s, step);
      case Answer(j) => AnswerMoves(s, j);
      case Expire(_) => TimeoutMoves(s, step);
      case GiveUp(_) => TimeoutMoves(s, step);
      case Sent(j) => SentMoves(s, j);
      case Finish(j) => FinishMoves(s, j);
    }
    InvMove(s, s', step.j, s'.jobs[step.j]);
  }

  // ---------------------------------------------------------------------------------
  // sendResponse

  /** Only goroutine `w` moves inside `sendResponse`, to phase `p` or out of it. */
  ghost predicate OnlySender(s: State, s': State, w: Who, p: Option<Phase>) {
    && s'.cfg == s.cfg && s'.read == s.read && s'.missed == s.missed
    && PhaseOf(s, w).Some? && PhaseOf(s', w) == p
    && (forall v :: v != w ==> PhaseOf(s', v) == PhaseOf(s, v))
    && |s'.jobs| == |s.jobs|
    && (forall j :: 0 <= j < |s.jobs| ==> JobOk(s.cfg, s'.jobs[j]))
    && (forall j :: 0 <= j < |s.jobs| ==> SameAnswer(s.jobs[j], s'.jobs[j]))
    && (forall j :: 0 <= j < |s.jobs| && w != InnerOf(j) && w != OuterOf(j) ==> s'.jobs[j] == s.jobs[j])
    && (w.TheReader? || s'.reader == s.reader)
    && ReaderOk(s')
  }

  predicate SameAnswer(job: Job, job': Job) {
    job'.h == job.h && job'.err == job.err && job'.body == job.body && job'.begun == job.begun
  }

  ghost predicate JobsOk(s: State) {
    (forall j :: 0 <= j < |s.jobs| ==> JobOk(s.cfg, s.jobs[j])) && ReaderOk(s)
  }

  /** Job `j` moves inside `sendResponse` on the side of `w` only. */
  ghost predicate OneSide(job: Job, job': Job, w: Who) {
    && !w.TheReader? && job' == job.(inner := job'.inner, outer := job'.outer)
    && (w.InnerOf? ==> job'.outer == job.outer && !job'.inner.Calling?)
    && (w.OuterOf? ==> job'.inner == job.inner)
  }

  lemma OneSideOnly(s: State, w: Who, job': Job, p: Option<Phase>)
    requires JobsOk(s) && PhaseOf(s, w).Some? && !w.TheReader?
    requires OneSide(s.jobs[w.j], job', w) && JobOk(s.cfg, job') && PhaseOf(Put(s, w.j, job'), w) == p
    ensures OnlySender(s, Put(s, w.j, job'), w, p)
  {
    assert JobOk(s.cfg, s.jobs[w.j]);
    forall v | v != w ensures PhaseOf(Put(s, w.j, job'), v) == PhaseOf(s, v) {
      OtherPhase(s, w, job', v);
    }
  }

  lemma OtherPhase(s: State, w: Who, job': Job, v: Who)
    requires PhaseOf(s, w).Some? && !w.TheReader? && v != w
    requires JobOk(s.cfg, s.jobs[w.j]) && OneSide(s.jobs[w.j], job', w)
    ensures PhaseOf(Put(s, w.j, job'), v) == PhaseOf(s, v)
  {
    match v
    case TheReader =>
    case InnerOf(_) =>
    case OuterOf(_) =>
  }

  lemma JobSenderMoves(s: State, w: Who, p: Phase)
    requires JobsOk(s) && PhaseOf(s, w).Some? && !w.TheReader?
    ensures OnlySender(s, ToPhase(s, w, p), w, Some(p))
    ensures ToPhase(s, w, p).jobs[w.j].at == s.jobs[w.j].at && SendPhase(ToPhase(s, w, p).jobs[w.j]) == p
  {
    assert JobOk(s.cfg, s.jobs[w.j]);
    OneSideOnly(s, w, ToPhase(s, w, p).jobs[w.j], Some(p));
  }

  lemma SenderMoves(s: State, w: Who, p: Phase)
    requires JobsOk(s) && PhaseOf(s, w).Some?
    ensures OnlySender(s, ToPhase(s, w, p), w, Some(p))
    ensures !w.TheReader? ==>
              ToPhase(s, w, p).jobs[w.j].at == s.jobs[w.j].at && SendPhase(ToPhase(s, w, p).jobs[w.j]) == p
    ensures TagOf(ToPhase(s, w, p), w) == TagOf(s, w)
  {
    if !w.TheReader? {
      JobSenderMoves(s, w, p);
    }
  }

  lemma JobSenderLeaves(s: State, w: Who)
    requires JobsOk(s) && PhaseOf(s, w) == Some(Unlocking) && !w.TheReader?
    ensures OnlySender(s, Leave(s, w), w, None)
    ensures Leave(s, w).jobs[w.j].at == s.jobs[w.j].at && SendPhase(Leave(s, w).jobs[w.j]) == Unlocking
  {
    assert JobOk(s.cfg, s.jobs[w.j]);
    OneSideOnly(s, w, Leave(s, w).jobs[w.j], None);
  }

  lemma SenderLeaves(s: State, w: Who)
    requires JobsOk(s) && PhaseOf(s, w) == Some(Unlocking)
    ensures OnlySender(s, Leave(s, w), w, None)
    ensures !w.TheReader? ==>
              Leave(s, w).jobs[w.j].at == s.jobs[w.j].at && SendPhase(Leave(s, w).jobs[w.j]) == Unlocking
  {
    if !w.TheReader? {
      JobSenderLeaves(s, w);
    }
  }

  /** The job whose response `w` sends, if any. */
  predicate Sends(w: Who, j: nat) {
    !w.TheReader? && w.j == j
  }

  /** A goroutine inside `sendResponse` moves and writes nothing. */
  lemma InvSender(s: State, s': State, w: Who, p: Option<Phase>)
    requires Inv(s) && OnlySender(s, s', w, p)
    requires s'.out == s.out && s'.tags == s.tags && (s'.dead == s.dead || s'.dead)
    requires s.lock == None || s.lock == Some(w)
    requires s'.lock == if p.Some? && p.value != NeedLock then Some(w) else None
    requires forall j :: 0 <= j < |s.jobs| && Sends(w, j) ==> s'.jobs[j].at == s.jobs[j].at && PlaceOk(s', j)
    requires WriterOk(s')
    ensures Inv(s')
  {
    forall j | 0 <= j < |s'.jobs| ensures PlaceOk(s', j) {
      assert PlaceOk(s, j);
    }
    forall i | 0 <= i < |s'.out| ensures FrameOk(s', i) {
      assert FrameOk(s, i);
    }
    forall v | Holding(s', v) ensures s'.lock == Some(v) {
      assert Holding(s, v) || v == w;
    }
  }

  lemma InvAcquire(s: State, w: Who)
    requires Inv(s) && Enabled(s, Acquire(w))
    ensures Inv(Apply(s, Acquire(w)))
  {
    var s' := ToPhase(s, w, HeadNext).(lock := Some(w));
    if w.TheReader? {
      SenderMoves(s, w, HeadNext);
      InvSender(s, s', w, Some(HeadNext));
    } else {
      InvAcquireJob(s, s', w);
    }
  }

  lemma InvAcquireJob(s: State, s': State, w: Who)
    requires Inv(s) && PhaseOf(s, w) == Some(NeedLock) && s.lock == None && !w.TheReader?
    requires s' == ToPhase(s, w, HeadNext).(lock := Some(w))
    ensures Inv(s')
  {
    JobSenderMoves(s, w, HeadNext);
    assert JobOk(s.cfg, s.jobs[w.j]) && PlaceOk(s, w.j);
    InvSender(s, s', w, Some(HeadNext));
  }

  lemma InvRelease(s: State, w: Who)
    requires Inv(s) && Enabled(s, Release(w))
    ensures Inv(Apply(s, Release(w)))
  {
    var s' := Leave(s, w).(lock := None);
    assert Holding(s, w);
    if w.TheReader? {
      SenderLeaves(s, w);
      InvSender(s, s', w, None);
    } else {
      InvReleaseJob(s, s', w);
    }
  }

  lemma InvReleaseJob(s: State, s': State, w: Who)
    requires Inv(s) && Holding(s, w) && PhaseOf(s, w) == Some(Unlocking) && !w.TheReader?
    requires s' == Leave(s, w).(lock := None)
    ensures Inv(s')
  {
    JobSenderLeaves(s, w);
    assert JobOk(s.cfg, s.jobs[w.j]) && PlaceOk(s, w.j);
    InvSender(s, s', w, None);
  }

  /** A write that fails leaves the wire dead. */
  lemma InvFailed(s: State, w: Who, step: Step)
    requires Inv(s) && Enabled(s, step) && (step == WriteHead(w, false) || step == WriteBody(w, false))
    ensures Inv(Apply(s, step))
  {
    var s' := ToPhase(s, w, Unlocking).(dead := true);
    assert Apply(s, step) == s';
    SenderMoves(s, w, Unlocking);
    assert Holding(s, w);
    if !w.TheReader? {
      InvFailedJob(s, s', w);
    } else {
      InvSender(s, s', w, Some(Unlocking));
    }
  }

  lemma InvFailedJob(s: State, s': State, w: Who)
    requires Inv(s) && Holding(s, w) && !w.TheReader? && s' == ToPhase(s, w, Unlocking).(dead := true)
    ensures Inv(s')
  {
    JobSenderMoves(s, w, Unlocking);
    assert JobOk(s.cfg, s.jobs[w.j]) && PlaceOk(s, w.j);
    InvSender(s, s', w, Some(Unlocking));
  }

  lemma PlacedKeeps(s: State, w: Who)
    requires Inv(s) && PhaseOf(s, w) == Some(HeadNext)
    ensures JobsOk(Placed(s, w))
    ensures forall v :: PhaseOf(Placed(s, w), v) == PhaseOf(s, v)
  {
    if !w.TheReader? {
      assert JobOk(s.cfg, s.jobs[w.j]) && JobOk(s.cfg, Placed(s, w).jobs[w.j]);
    }
    forall v ensures PhaseOf(Placed(s, w), v) == PhaseOf(s, v) {
    }
  }

  /** What a write appends, and to what. */
  ghost predicate Appends(s: State, s': State, w: Who, p: Phase, item: Item) {
    && PhaseOf(s, w).Some? && OnlySender(s, s', w, Some(p)) && p != NeedLock
    && s'.out == s.out + [item] && s'.tags == s.tags + [TagOf(s, w)]
    && s'.dead == s.dead == false && s'.lock == s.lock == Some(w)
  }

  lemma PlaceAppend(s: State, s': State, w: Who, p: Phase, item: Item, j: nat)
    requires Inv(s) && Appends(s, s', w, p, item) && j < |s.jobs| && !Sends(w, j) && s'.jobs[j].at == s.jobs[j].at
    requires s.jobs[j].begun == 1 ==> SendPhase(s.jobs[j]) != BodyNext
    ensures PlaceOk(s', j)
  {
    assert PlaceOk(s, j);
    assert s'.jobs[j] == s.jobs[j];
  }

  lemma FrameAppend(s: State, s': State, w: Who, p: Phase, item: Item, i: nat)
    requires Inv(s) && Appends(s, s', w, p, item) && i < |s.out|
    requires forall j :: 0 <= j < |s.jobs| ==> s'.jobs[j].at == s.jobs[j].at || (Sends(w, j) && s.jobs[j].at == None)
    ensures FrameOk(s', i)
  {
    assert FrameOk(s, i);
    assert s'.out[i] == s.out[i] && s'.tags[i] == s.tags[i] && (i > 0 ==> s'.tags[i - 1] == s.tags[i - 1]);
  }

  lemma FramesAppend(s: State, s': State, w: Who, p: Phase, item: Item)
    requires Inv(s) && Appends(s, s', w, p, item) && FrameOk(s', |s.out|)
    requires forall j :: 0 <= j < |s.jobs| ==> s'.jobs[j].at == s.jobs[j].at || (Sends(w, j) && s.jobs[j].at == None)
    ensures forall i :: 0 <= i < |s'.out| ==> FrameOk(s', i)
  {
    forall i | 0 <= i < |s'.out| ensures FrameOk(s', i) {
      if i < |s.out| {
        FrameAppend(s, s', w, p, item, i);
      }
    }
  }

  lemma InvAppend(s: State, s': State, w: Who, p: Phase, item: Item)
    requires Inv(s) && Appends(s, s', w, p, item)
    requires forall j :: 0 <= j < |s.jobs| ==> s'.jobs[j].at == s.jobs[j].at || (Sends(w, j) && s.jobs[j].at == None)
    requires forall j :: 0 <= j < |s.jobs| && Sends(w, j) ==> PlaceOk(s', j)
    requires FrameOk(s', |s.out|) && WriterOk(s')
    requires forall j :: 0 <= j < |s.jobs| && !Sends(w, j) ==>
               s.jobs[j].begun == 1 ==> SendPhase(s.jobs[j]) != BodyNext
    ensures Inv(s')
  {
    forall j | 0 <= j < |s'.jobs| ensures PlaceOk(s', j) {
      if !Sends(w, j) {
        PlaceAppend(s, s', w, p, item, j);
      }
    }
    FramesAppend(s, s', w, p, item);
    LockAppend(s, s', w, p, item);
  }

  lemma LockAppend(s: State, s': State, w: Who, p: Phase, item: Item)
    requires Inv(s) && Appends(s, s', w, p, item)
    ensures LockOk(s')
  {
    forall v | Holding(s', v) ensures s'.lock == Some(v) {
      assert Holding(s, v) || v == w;
    }
  }

  /** Only the holder of the lock is between header and body. */
  lemma OthersNotMidFrame(s: State, w: Who, j: nat)
    requires LockOk(s) && s.lock == Some(w) && j < |s.jobs| && !Sends(w, j)
    ensures SendPhase(s.jobs[j]) != BodyNext
  {
    if s.jobs[j].inner.Answering? {
      assert Holding(s, InnerOf(j)) ==> w == InnerOf(j);
    } else if s.jobs[j].outer.Sending? {
      assert Holding(s, OuterOf(j)) ==> w == OuterOf(j);
    }
  }

  lemma NoOtherMidFrame(s: State, w: Who)
    requires LockOk(s) && s.lock == Some(w)
    ensures forall j :: 0 <= j < |s.jobs| && !Sends(w, j) ==> s.jobs[j].begun == 1 ==> SendPhase(s.jobs[j]) != BodyNext
  {
    forall j | 0 <= j < |s.jobs| && !Sends(w, j) && s.jobs[j].begun == 1
      ensures SendPhase(s.jobs[j]) != BodyNext
    {
      OthersNotMidFrame(s, w, j);
    }
  }

  lemma InvRejectHead(s: State)
    requires Inv(s) && Enabled(s, WriteHead(TheReader, true))
    ensures Inv(Apply(s, WriteHead(TheReader, true)))
  {
    var s' := Apply(s, WriteHead(TheReader, true));
    assert Holding(s, TheReader);
    SenderMoves(s, TheReader, BodyNext);
    NoOtherMidFrame(s, TheReader);
    InvAppend(s, s', TheReader, BodyNext, HeadFor(s.jobs, TagOf(s, TheReader)));
  }

  lemma PlacedOnly(s: State, s1: State, s': State, w: Who, p: Phase)
    requires PhaseOf(s, w) == Some(HeadNext) && !w.TheReader?
    requires forall v :: PhaseOf(Placed(s, w), v) == PhaseOf(s, v)
    requires OnlySender(Placed(s, w), s1, w, Some(p))
    requires s' == s1.(out := s'.out, tags := s'.tags)
    ensures OnlySender(s, s', w, Some(p))
  {
    assert PhaseOf(s', w) == PhaseOf(s1, w);
    forall v | v != w ensures PhaseOf(s', v) == PhaseOf(s, v) {
      assert PhaseOf(s', v) == PhaseOf(s1, v);
    }
    forall j | 0 <= j < |s.jobs| ensures SameAnswer(s.jobs[j], s'.jobs[j]) {
      assert SameAnswer(Placed(s, w).jobs[j], s1.jobs[j]);
    }
  }

  lemma AnswerHeadAppends(s: State, w: Who)
    requires Inv(s) && Enabled(s, WriteHead(w, true)) && !w.TheReader?
    ensures Appends(s, Apply(s, WriteHead(w, true)), w, BodyNext, HeadFor(s.jobs, TagOf(s, w)))
  {
    assert Holding(s, w);
    PlacedKeeps(s, w);
    JobSenderMoves(Placed(s, w), w, BodyNext);
    PlacedOnly(s, ToPhase(Placed(s, w), w, BodyNext), Apply(s, WriteHead(w, true)), w, BodyNext);
  }

  /** The header lies where the job's place says it does. */
  lemma AnswerHeadFits(s: State, w: Who)
    requires Inv(s) && Enabled(s, WriteHead(w, true)) && !w.TheReader?
    ensures var s' := Apply(s, WriteHead(w, true));
            && |s'.jobs| == |s.jobs| && |s'.out| == |s.out| + 1 == |s'.tags|
            && PlaceOk(s', w.j) && FrameOk(s', |s.out|) && WriterOk(s') && s.jobs[w.j].at == None
            && forall j :: 0 <= j < |s.jobs| && !Sends(w, j) ==> s'.jobs[j].at == s.jobs[j].at
  {
    assert Holding(s, w);
    assert JobOk(s.cfg, s.jobs[w.j]) && PlaceOk(s, w.j);
  }

  lemma InvAnswerHead(s: State, w: Who)
    requires Inv(s) && Enabled(s, WriteHead(w, true)) && !w.TheReader?
    ensures Inv(Apply(s, WriteHead(w, true)))
  {
    AnswerHeadAppends(s, w);
    AnswerHeadFits(s, w);
    NoOtherMidFrame(s, w);
    InvAppend(s, Apply(s, WriteHead(w, true)), w, BodyNext, HeadFor(s.jobs, TagOf(s, w)));
  }

  lemma InvRejectBody(s: State)
    requires Inv(s) && Enabled(s, WriteBody(TheReader, true))
    ensures Inv(Apply(s, WriteBody(TheReader, true)))
  {
    var s' := Apply(s, WriteBody(TheReader, true));
    assert Holding(s, TheReader);
    SenderMoves(s, TheReader, Unlocking);
    NoOtherMidFrame(s, TheReader);
    InvAppend(s, s', TheReader, Unlocking, BodyFor(s.jobs, TagOf(s, TheReader)));
  }

  /** The body lies behind its header. */
  lemma AnswerBodyFits(s: State, w: Who)
    requires Inv(s) && Enabled(s, WriteBody(w, true)) && !w.TheReader?
    ensures var s' := Apply(s, WriteBody(w, true));
            && |s'.jobs| == |s.jobs| && |s'.out| == |s.out| + 1 == |s'.tags|
            && PlaceOk(s', w.j) && FrameOk(s', |s.out|) && WriterOk(s')
            && forall j :: 0 <= j < |s.jobs| ==> s'.jobs[j].at == s.jobs[j].at
  {
    assert Holding(s, w);
    assert JobOk(s.cfg, s.jobs[w.j]) && PlaceOk(s, w.j);
  }

  lemma InvAnswerBody(s: State, w: Who)
    requires Inv(s) && Enabled(s, WriteBody(w, true)) && !w.TheReader?
    ensures Inv(Apply(s, WriteBody(w, true)))
  {
    assert Holding(s, w);
    JobSenderMoves(s, w, Unlocking);
    AnswerBodyFits(s, w);
    NoOtherMidFrame(s, w);
    InvAppend(s, Apply(s, WriteBody(w, true)), w, Unlocking, BodyFor(s.jobs, TagOf(s, w)));
  }

  lemma InvWritten(s: State, step: Step)
    requires Inv(s) && Enabled(s, step) && Writes(step)
    ensures Inv(Apply(s, step))
  {
    match step
    case WriteHead(w, _) => if w.TheReader? { InvRejectHead(s); } else { InvAnswerHead(s, w); }
    case WriteBody(w, _) => if w.TheReader? { InvRejectBody(s); } else { InvAnswerBody(s, w); }
  }

  lemma InvStep(s: State, step: Step)
    requires Inv(s) && Enabled(s, step)
    ensures Inv(Apply(s, step))
  {
    match step
    case ReadHead(_) => InvLoop(s, step);
    case FailHead => InvLoop(s, step);
    case Lookup => InvLoop(s, step);
    case FailBody(_) => InvLoop(s, step);
    case ReadBody(b) => InvAccept(s, b);
    case CloseCodec => InvClose(s);
    case Acquire(w) => InvAcquire(s, w);
    case Release(w) => InvRelease(s, w);
    case WriteHead(w, ok) => if ok { InvWritten(s, step); } else { InvFailed(s, w, step); }
    case WriteBody(w, ok) => if ok { InvWritten(s, step); } else { InvFailed(s, w, step); }
    case _ => InvHandler(s, step);
  }

  lemma {:induction false} InvHolds(cfg: Config, steps: seq<Step>)
    requires Exec(cfg, steps).Some?
    ensures Inv(Exec(cfg, steps).value) && Exec(cfg, steps).value.cfg == cfg
  {
    if steps != [] {
      InvHolds(cfg, steps[..|steps| - 1]);
      InvStep(Exec(cfg, steps[..|steps| - 1]).value, steps[|steps| - 1]);
    }
  }

  /** Item `i` is a header or, after one of the same response, the body of a begun answer or of a
      rejection. */
  ghost predicate InFrame(s: State, i: nat)
    requires i < |s.out| == |s.tags|
  {
    && (i % 2 == 1 ==> s.tags[i] == s.tags[i - 1])
    && match s.tags[i]
       case ForJob(j) =>
         && j < |s.jobs| && s.jobs[j].begun == 1 && Says(s.cfg, s.jobs[j])
         && s.out[i] == if i % 2 == 0 then Head(s.jobs[j].h.(err := s.jobs[j].err)) else Body(s.jobs[j].body)
       case Rejected(h, err) =>
         err != "" && s.out[i] == if i % 2 == 0 then Head(h.(err := err)) else Body(INVALID)
  }

  /** The response wire is a sequence of whole frames; an unfinished frame is at its end, and on a
      live wire there is one only while the goroutine that holds `sending` is between the two items of
      its own. */
  ghost predicate Framed(s: State) {
    && |s.out| == |s.tags|
    && (forall i :: 0 <= i < |s.out| ==> InFrame(s, i))
    && (!s.dead ==> (|s.out| % 2 == 1 <==> s.lock.Some? && PhaseOf(s, s.lock.value) == Some(BodyNext)))
    && (!s.dead && |s.out| % 2 == 1 ==> s.tags[|s.out| - 1] == TagOf(s, s.lock.value))
  }

  lemma ItemInFrame(s: State, i: nat)
    requires Inv(s) && i < |s.out|
    ensures InFrame(s, i)
  {
    assert FrameOk(s, i);
    assert s.tags[i].ForJob? ==> JobOk(s.cfg, s.jobs[s.tags[i].j]);
  }

  lemma ResponsesAreFramed(cfg: Config, steps: seq<Step>)
    requires Exec(cfg, steps).Some?
    ensures Framed(Exec(cfg, steps).value)
  {
    InvHolds(cfg, steps);
    var s := Exec(cfg, steps).value;
    forall i | 0 <= i < |s.out| ensures InFrame(s, i) {
      ItemInFrame(s, i);
    }
  }

  // ---------------------------------------------------------------------------------
  // Why requests are rejected

  /** The lookup failed with this error, or it succeeded and the body could not be read. */
  ghost predicate Because(s: State, h: Header, err: string) {
    || FindError(s.cfg.services, h.serviceMethod) == Some(err)
    || (FindError(s.cfg.services, h.serviceMethod) == None && (h, err) in s.undecoded)
  }

  ghost predicate ReasonsOk(s: State) {
    && (s.reader.GotService? ==> FindError(s.cfg.services, s.reader.h.serviceMethod) == None)
    && (s.reader.Rejecting? ==> Because(s, s.reader.h, s.reader.err))
    && forall i :: 0 <= i < |s.tags| && s.tags[i].Rejected? ==> Because(s, s.tags[i].h, s.tags[i].err)
  }

  lemma ReasonsAfterReader(s: State, step: Step)
    requires Enabled(s, step) && ByReader(step) && ReasonsOk(s)
    ensures ReasonsOk(Apply(s, step))
  {
    match step
    case ReadHead(_) =>
    case FailHead =>
    case Lookup =>
    case ReadBody(_) =>
    case FailBody(_) =>
    case CloseCodec =>
  }

  lemma ReasonsKept(s: State, s': State)
    requires ReasonsOk(s)
    requires OnlyJobs(s, s') ||
             (OnlyRejection(s, s') && (s'.tags == s.tags || s'.tags == s.tags + [Rejected(s.reader.h, s.reader.err)]))
    ensures ReasonsOk(s')
  {
    forall i | 0 <= i < |s'.tags| && s'.tags[i].Rejected? ensures Because(s', s'.tags[i].h, s'.tags[i].err) {
      assert i < |s.tags| ==> s'.tags[i] == s.tags[i];
    }
  }

  lemma ReasonsStep(s: State, step: Step)
    requires Enabled(s, step) && ReasonsOk(s)
    ensures ReasonsOk(Apply(s, step))
  {
    if ByReader(step) {
      ReasonsAfterReader(s, step);
    } else {
      if ByHandler(step) {
        HandlerKeeps(s, step);
      } else if step.w.TheReader? {
        RejectionKeeps(s, step);
      } else {
        ResponseKeeps(s, step);
      }
      ReasonsKept(s, Apply(s, step));
    }
  }

  lemma {:induction false} ReasonsHold(cfg: Config, steps: seq<Step>)
    requires Exec(cfg, steps).Some?
    ensures ReasonsOk(Exec(cfg, steps).value) && Exec(cfg, steps).value.cfg == cfg
  {
    if steps != [] {
      ReasonsHold(cfg, steps[..|steps| - 1]);
      ReasonsStep(Exec(cfg, steps[..|steps| - 1]).value, steps[|steps| - 1]);
      WireGrows(Exec(cfg, steps[..|steps| - 1]).value, steps[|steps| - 1]);
    }
  }

  /** Every rejection on the wire carries the header of its request and says why: the method does not
      exist, or its arguments could not be read. */
  lemma RejectionsSayWhy(cfg: Config, steps: seq<Step>, i: nat)
    requires Exec(cfg, steps).Some? && i < |Exec(cfg, steps).value.tags|
    requires Exec(cfg, steps).value.tags[i].Rejected?
    ensures var s := Exec(cfg, steps).value;
            && Because(s, s.tags[i].h, s.tags[i].err)
            && i < |s.out| && s.out[i] == if i % 2 == 0 then Head(s.tags[i].h.(err := s.tags[i].err)) else Body(INVALID)
  {
    ReasonsHold(cfg, steps);
    ResponsesAreFramed(cfg, steps);
    assert InFrame(Exec(cfg, steps).value, i);
  }

  // ---------------------------------------------------------------------------------
  // One response per request

  ghost predicate HeadAt(s: State, i: nat, j: nat) {
    i < |s.out| == |s.tags| && i % 2 == 0 && s.tags[i] == ForJob(j)
  }

  /** Every accepted request is answered at most once, and `req.h.Err` is set by at most one of the
      two goroutines; when its handler has finished it has been answered, whoever won the race. */
  lemma OneResponse(cfg: Config, steps: seq<Step>, j: nat)
    requires Exec(cfg, steps).Some? && j < |Exec(cfg, steps).value.jobs|
    ensures var job := Exec(cfg, steps).value.jobs[j];
            && job.begun <= 1 && |job.setters| <= 1
            && (job.outer.Finished? ==> job.begun == 1 && Says(cfg, job))
  {
    InvHolds(cfg, steps);
    assert JobOk(cfg, Exec(cfg, steps).value.jobs[j]);
  }

  /** No request has two response headers on the wire. */
  lemma NoSecondFrame(cfg: Config, steps: seq<Step>, j: nat, i: nat, i': nat)
    requires Exec(cfg, steps).Some?
    requires HeadAt(Exec(cfg, steps).value, i, j) && HeadAt(Exec(cfg, steps).value, i', j)
    ensures i == i'
  {
    InvHolds(cfg, steps);
    assert FrameOk(Exec(cfg, steps).value, i) && FrameOk(Exec(cfg, steps).value, i');
  }

  /** Unless the connection failed, a finished handler's response is on the wire, header and body
      side by side. */
  lemma FinishedIsOnTheWire(cfg: Config, steps: seq<Step>, j: nat) returns (i: nat)
    requires Exec(cfg, steps).Some? && j < |Exec(cfg, steps).value.jobs|
    requires Exec(cfg, steps).value.jobs[j].outer.Finished? && !Exec(cfg, steps).value.dead
    ensures var s := Exec(cfg, steps).value;
            && HeadAt(s, i, j) && i + 1 < |s.out|
            && s.out[i] == HeadFor(s.jobs, ForJob(j)) && s.out[i + 1] == BodyFor(s.jobs, ForJob(j))
  {
    InvHolds(cfg, steps);
    i := FinishedFrame(Exec(cfg, steps).value, j);
  }

  lemma FinishedFrame(s: State, j: nat) returns (i: nat)
    requires Inv(s) && j < |s.jobs| && s.jobs[j].outer.Finished? && !s.dead
    ensures HeadAt(s, i, j) && i + 1 < |s.out|
    ensures s.out[i] == HeadFor(s.jobs, ForJob(j)) && s.out[i + 1] == BodyFor(s.jobs, ForJob(j))
  {
    assert JobOk(s.cfg, s.jobs[j]) && PlaceOk(s, j);
    i := s.jobs[j].at.value;
    assert FrameOk(s, i) && FrameOk(s, i + 1);
  }

  /** After a timeout the goroutine that called the service never gets to answer. */
  lemma TimeoutSilencesService(cfg: Config, steps: seq<Step>, j: nat, step: Step)
    requires Exec(cfg, steps).Some? && Enabled(Exec(cfg, steps).value, step)
    requires j < |Exec(cfg, steps).value.jobs| && Exec(cfg, steps).value.jobs[j].setters == [ByOuter]
    ensures step != HandOver(j) && step != Answer(j) && step != Sent(j)
    ensures step.WriteHead? || step.WriteBody? ==> step.w != InnerOf(j)
  {
    InvHolds(cfg, steps);
    Silenced(Exec(cfg, steps).value, j, step);
  }

  lemma Silenced(s: State, j: nat, step: Step)
    requires j < |s.jobs| && JobOk(s.cfg, s.jobs[j]) && s.jobs[j].setters == [ByOuter] && Enabled(s, step)
    ensures step != HandOver(j) && step != Answer(j) && step != Sent(j)
    ensures step.WriteHead? || step.WriteBody? ==> step.w != InnerOf(j)
  {
    match step
    case HandOver(_) =>
    case Answer(_) =>
    case Sent(_) =>
    case WriteHead(_, _) =>
    case WriteBody(_, _) =>
    case _ =>
  }

  /** A limit of zero is none: then no request is answered by a timeout. */
  lemma NoLimitNoTimeout(cfg: Config, steps: seq<Step>, j: nat)
    requires Exec(cfg, steps).Some? && j < |Exec(cfg, steps).value.jobs| && cfg.timeout == 0
    ensures ByService(Exec(cfg, steps).value.jobs[j]) && !Exec(cfg, steps).value.jobs[j].outer.Expired?
  {
    InvHolds(cfg, steps);
    assert JobOk(cfg, Exec(cfg, steps).value.jobs[j]);
  }

  /** Once `wg.Wait` has let the codec close, no goroutine is, or will be, inside `sendResponse`. */
  lemma NoWriteAfterClose(cfg: Config, steps: seq<Step>, step: Step)
    requires Exec(cfg, steps).Some? && Exec(cfg, steps).value.reader.Closed?
    requires Enabled(Exec(cfg, steps).value, step)
    ensures step.Call?
    ensures Apply(Exec(cfg, steps).value, step).reader.Closed?
  {
    InvHolds(cfg, steps);
    var s := Exec(cfg, steps).value;
    if BySender(step) {
      NobodySends(s, step.w);
    } else if !ByReader(step) {
      assert JobOk(s.cfg, s.jobs[step.j]) && s.jobs[step.j].outer.Finished?;
    }
  }

  lemma NobodySends(s: State, w: Who)
    requires Inv(s) && s.reader.Closed?
    ensures PhaseOf(s, w) == None
  {
    if !w.TheReader? && w.j < |s.jobs| {
      assert JobOk(s.cfg, s.jobs[w.j]);
    }
  }

  // ---------------------------------------------------------------------------------
  // The reader

  /** At the head of the read loop the reader is between two frames exactly when the number of
      lookups that failed so far is even: a failed lookup leaves the body unread. */
  lemma AlignedIff(cfg: Config, steps: seq<Step>)
    requires Exec(cfg, steps).Some? && Exec(cfg, steps).value.reader.AtHead?
    ensures var s := Exec(cfg, steps).value; s.read % 2 == 0 <==> s.missed % 2 == 0
  {
    InvHolds(cfg, steps);
  }

  ghost predicate Asks(steps: seq<Step>, methods: set<string>) {
    forall i :: 0 <= i < |steps| && steps[i].ReadHead? ==> steps[i].h.serviceMethod in methods
  }

  /** The run ends at the head of the read loop, in the middle of a frame. */
  ghost predicate Misaligned(cfg: Config, steps: seq<Step>) {
    Exec(cfg, steps).Some? && Exec(cfg, steps).value.reader.AtHead? && Exec(cfg, steps).value.read % 2 != 0
  }

  /** Whatever clients do that call only `methods`, the reader is at a frame boundary at every loop head. */
  ghost predicate StaysAligned(cfg: Config, methods: set<string>) {
    forall steps :: Asks(steps, methods) ==> !Misaligned(cfg, steps)
  }

  /** That holds exactly when every one of the methods is registered. */
  lemma StaysAlignedIff(cfg: Config, methods: set<string>)
    ensures StaysAligned(cfg, methods) <==> forall m :: m in methods ==> IsRegistered(cfg.services, m)
  {
    forall m | m in methods ensures FindError(cfg.services, m) == None <==> IsRegistered(cfg.services, m) {
      FoundIff(cfg.services, m);
    }
    if forall m :: m in methods ==> FindError(cfg.services, m) == None {
      forall steps | Asks(steps, methods)
        ensures !Misaligned(cfg, steps)
      {
        if Misaligned(cfg, steps) {
          NothingMissed(cfg, methods, steps);
          AlignedIff(cfg, steps);
        }
      }
    } else {
      var m :| m in methods && FindError(cfg.services, m) != None;
      Misaligns(cfg, methods, m);
    }
  }

  lemma Misaligns(cfg: Config, methods: set<string>, m: string)
    requires m in methods && FindError(cfg.services, m) != None
    ensures !StaysAligned(cfg, methods)
  {
    var steps := UnknownMethodRun(cfg, methods, m);
  }

  lemma {:induction false} NothingMissed(cfg: Config, methods: set<string>, steps: seq<Step>)
    requires Asks(steps, methods) && Exec(cfg, steps).Some?
    requires forall m :: m in methods ==> FindError(cfg.services, m) == None
    ensures var s := Exec(cfg, steps).value;
            s.cfg == cfg && s.missed == 0 && (s.reader.GotHead? ==> s.reader.h.serviceMethod in methods)
  {
    if steps != [] {
      NothingMissed(cfg, methods, steps[..|steps| - 1]);
      var s, step := Exec(cfg, steps[..|steps| - 1]).value, steps[|steps| - 1];
      if !ByReader(step) {
        ReaderUnmoved(s, step);
      }
    }
  }

  lemma ReaderUnmoved(s: State, step: Step)
    requires Enabled(s, step) && !ByReader(step)
    ensures Apply(s, step).cfg == s.cfg && Apply(s, step).missed == s.missed
    ensures Apply(s, step).reader.GotHead? ==> Apply(s, step).reader == s.reader
  {
  }

  lemma {:induction false} ExecSnoc(cfg: Config, steps: seq<Step>, step: Step)
    requires Exec(cfg, steps).Some? && Enabled(Exec(cfg, steps).value, step)
    ensures Exec(cfg, steps + [step]) == Some(Apply(Exec(cfg, steps).value, step))
  {
    assert (steps + [step])[..|steps|] == steps;
  }

  /** The reader answers a rejected request and goes back to the head of its loop. */
  lemma {:induction false} RejectionRun(cfg: Config, steps: seq<Step>) returns (longer: seq<Step>)
    requires Exec(cfg, steps).Some? && var s := Exec(cfg, steps).value;
             s.reader.Rejecting? && s.reader.phase == NeedLock && s.lock == None && !s.dead
    ensures longer == steps + [Acquire(TheReader)] + [WriteHead(TheReader, true)] + [WriteBody(TheReader, true)]
                            + [Release(TheReader)]
    ensures Exec(cfg, longer).Some?
    ensures Exec(cfg, longer).value.reader.AtHead? && Exec(cfg, longer).value.read == Exec(cfg, steps).value.read
    ensures forall methods :: Asks(steps, methods) ==> Asks(longer, methods)
  {
    longer := steps + [Acquire(TheReader)];
    ExecSnoc(cfg, steps, Acquire(TheReader));
    ExecSnoc(cfg, longer, WriteHead(TheReader, true));
    longer := longer + [WriteHead(TheReader, true)];
    ExecSnoc(cfg, longer, WriteBody(TheReader, true));
    longer := longer + [WriteBody(TheReader, true)];
    ExecSnoc(cfg, longer, Release(TheReader));
    longer := longer + [Release(TheReader)];
    forall methods | Asks(steps, methods) ensures Asks(longer, methods) {
      assert forall i :: 0 <= i < |steps| ==> longer[i] == steps[i];
    }
  }

  lemma {:induction false} UnknownMethodRead(cfg: Config, m: string) returns (steps: seq<Step>)
    requires FindError(cfg.services, m) != None
    ensures steps == [ReadHead(Header(m, 1, ""))] + [Lookup]
    ensures Exec(cfg, steps).Some? && Exec(cfg, steps).value.read == 1
    ensures var s := Exec(cfg, steps).value;
            s.reader.Rejecting? && s.reader.phase == NeedLock && s.lock == None && !s.dead
  {
    var h := Header(m, 1, "");
    assert [] + [ReadHead(h)] == [ReadHead(h)];
    ExecSnoc(cfg, [], ReadHead(h));
    ExecSnoc(cfg, [ReadHead(h)], Lookup);
    steps := [ReadHead(h)] + [Lookup];
  }

  /** One request for an unregistered method: it is answered with an error, and the loop goes on to
      read its body as the next header. */
  lemma {:induction false} UnknownMethodRun(cfg: Config, methods: set<string>, m: string) returns (steps: seq<Step>)
    requires m in methods && FindError(cfg.services, m) != None
    ensures Asks(steps, methods) && Misaligned(cfg, steps)
  {
    steps := UnknownMethodRead(cfg, m);
    steps := RejectionRun(cfg, steps);
  }
}
