/** A run of client and server in which a failure is lost: one call whose service fails with an empty
    message, and whose caller returns without an error. */
module RpcLostError {
  import opened Basics
  import opened RpcLookup
  import opened RpcWire
  import C = RpcClient
  import S = RpcServer
  import opened RpcSession

  ghost predicate Leads(cfg: S.Config, steps: seq<Step>, x: State) {
    Exec(cfg, steps) == Some(x) && CallsAreKnown(cfg, steps)
  }

  lemma {:induction false} OneMoreStep(cfg: S.Config, steps: seq<Step>, x: State, step: Step)
    returns (longer: seq<Step>)
    requires Leads(cfg, steps, x) && Enabled(x, step)
    requires step.ByClient? && step.cs.Go? ==> IsRegistered(cfg.services, step.cs.req.serviceMethod)
    ensures Leads(cfg, longer, Apply(x, step))
  {
    longer := steps + [step];
    assert longer[..|steps|] == steps;
  }

  function OneCaller(m: string, args: Bytes): C.Caller {
    C.Caller(C.Request(m, args), 1, C.Waiting, None, C.NoError, 0, false)
  }

  /** The client after it has sent the call. */
  function CallSent(m: string, args: Bytes): C.State {
    C.State([OneCaller(m, args)], map[1 := 0], 2, false, false, None, C.AtHead, false, map[1 := 0],
            [Head(Header(m, 1, "")), Body(args)], 0)
  }

  lemma {:induction false} RunRegister(cfg: S.Config, m: string, args: Bytes) returns (steps: seq<Step>)
    requires IsRegistered(cfg.services, m)
    ensures Leads(cfg, steps, State(CallSent(m, args).(callers := [OneCaller(m, args).(pc := C.WritingHead)],
                                                       lock := Some(0), out := []), S.Init(cfg)))
  {
    var x := Init(cfg);
    steps := OneMoreStep(cfg, [], x, ByClient(C.Go(C.Request(m, args))));
    x := Apply(x, ByClient(C.Go(C.Request(m, args))));
    steps := OneMoreStep(cfg, steps, x, ByClient(C.Lock(0)));
    x := Apply(x, ByClient(C.Lock(0)));
    steps := OneMoreStep(cfg, steps, x, ByClient(C.Register(0)));
    assert Apply(x, ByClient(C.Register(0))).c.callers == [OneCaller(m, args).(pc := C.WritingHead)];
  }

  function CallWritten(m: string, args: Bytes): C.State {
    CallSent(m, args).(callers := [OneCaller(m, args).(pc := C.Unlocking)], lock := Some(0))
  }

  lemma {:induction false} RunWrite(cfg: S.Config, m: string, args: Bytes) returns (steps: seq<Step>)
    requires IsRegistered(cfg.services, m)
    ensures Leads(cfg, steps, State(CallWritten(m, args), S.Init(cfg)))
  {
    steps := RunRegister(cfg, m, args);
    var x := State(CallSent(m, args).(callers := [OneCaller(m, args).(pc := C.WritingHead)],
                                      lock := Some(0), out := []), S.Init(cfg));
    steps := OneMoreStep(cfg, steps, x, ByClient(C.WriteHead(0, true)));
    x := Apply(x, ByClient(C.WriteHead(0, true)));
    steps := OneMoreStep(cfg, steps, x, ByClient(C.WriteBody(0, true)));
    x := Apply(x, ByClient(C.WriteBody(0, true)));
    assert x.c.callers == CallWritten(m, args).callers && x.c.out == CallWritten(m, args).out;
  }

  lemma {:induction false} RunSend(cfg: S.Config, m: string, args: Bytes) returns (steps: seq<Step>)
    requires IsRegistered(cfg.services, m)
    ensures Leads(cfg, steps, State(CallSent(m, args), S.Init(cfg)))
  {
    steps := RunWrite(cfg, m, args);
    var x := State(CallWritten(m, args), S.Init(cfg));
    steps := OneMoreStep(cfg, steps, x, ByClient(C.Unlock(0)));
    assert Apply(x, ByClient(C.Unlock(0))).c.callers == [OneCaller(m, args)];
  }

  function OneJob(m: string, args: Bytes): S.Job {
    S.Job(Header(m, 1, ""), args, S.Selecting, S.Calling, "", [], [], None, 0, None)
  }

  function Accepted(cfg: S.Config, job: S.Job): S.State {
    S.Init(cfg).(jobs := [job], read := 2)
  }

  lemma {:induction false} RunAccept(cfg: S.Config, m: string, args: Bytes) returns (steps: seq<Step>)
    requires IsRegistered(cfg.services, m)
    ensures Leads(cfg, steps, State(CallSent(m, args), Accepted(cfg, OneJob(m, args))))
  {
    steps := RunSend(cfg, m, args);
    var x := State(CallSent(m, args), S.Init(cfg));
    FoundIff(cfg.services, m);
    steps := OneMoreStep(cfg, steps, x, ByServer(S.ReadHead(Header(m, 1, ""))));
    x := Apply(x, ByServer(S.ReadHead(Header(m, 1, ""))));
    steps := OneMoreStep(cfg, steps, x, ByServer(S.Lookup));
    x := Apply(x, ByServer(S.Lookup));
    steps := OneMoreStep(cfg, steps, x, ByServer(S.ReadBody(args)));
    assert Apply(x, ByServer(S.ReadBody(args))).s.jobs == [OneJob(m, args)];
  }

  /** The job whose service has failed with an empty message and whose response waits for the lock. */
  function FailedJob(m: string, args: Bytes): S.Job {
    OneJob(m, args).(outer := S.AwaitSent, inner := S.Answering(S.NeedLock), body := S.INVALID,
                     setters := [S.ByInner], result := Some(S.Fault("")), begun := 1)
  }

  lemma {:induction false} RunService(cfg: S.Config, m: string, args: Bytes) returns (steps: seq<Step>)
    requires IsRegistered(cfg.services, m)
    ensures Leads(cfg, steps, State(CallSent(m, args), Accepted(cfg, FailedJob(m, args))))
  {
    steps := RunAccept(cfg, m, args);
    var x := State(CallSent(m, args), Accepted(cfg, OneJob(m, args)));
    steps := OneMoreStep(cfg, steps, x, ByServer(S.Call(0, S.Fault(""))));
    x := Apply(x, ByServer(S.Call(0, S.Fault(""))));
    steps := OneMoreStep(cfg, steps, x, ByServer(S.HandOver(0)));
    x := Apply(x, ByServer(S.HandOver(0)));
    steps := OneMoreStep(cfg, steps, x, ByServer(S.Answer(0)));
    assert Apply(x, ByServer(S.Answer(0))).s.jobs[0].setters == [S.ByInner];
    assert Apply(x, ByServer(S.Answer(0))).s.jobs == [FailedJob(m, args)];
  }

  /** The server after it has answered. */
  function Responded(cfg: S.Config, m: string, args: Bytes): S.State {
    Accepted(cfg, FailedJob(m, args).(inner := S.OfferSent, at := Some(0)))
    .(out := [Head(Header(m, 1, "")), Body(S.INVALID)], tags := [S.ForJob(0), S.ForJob(0)])
  }

  /** The server when it has written the answer and still holds the lock. */
  function Answered(cfg: S.Config, m: string, args: Bytes): S.State {
    Responded(cfg, m, args).(jobs := [FailedJob(m, args).(inner := S.Answering(S.Unlocking), at := Some(0))],
                             lock := Some(S.InnerOf(0)))
  }

  lemma {:induction false} RunAnswer(cfg: S.Config, m: string, args: Bytes) returns (steps: seq<Step>)
    requires IsRegistered(cfg.services, m)
    ensures Leads(cfg, steps, State(CallSent(m, args), Answered(cfg, m, args)))
  {
    steps := RunService(cfg, m, args);
    var x, w := State(CallSent(m, args), Accepted(cfg, FailedJob(m, args))), S.InnerOf(0);
    steps := OneMoreStep(cfg, steps, x, ByServer(S.Acquire(w)));
    x := Apply(x, ByServer(S.Acquire(w)));
    steps := OneMoreStep(cfg, steps, x, ByServer(S.WriteHead(w, true)));
    x := Apply(x, ByServer(S.WriteHead(w, true)));
    steps := OneMoreStep(cfg, steps, x, ByServer(S.WriteBody(w, true)));
    x := Apply(x, ByServer(S.WriteBody(w, true)));
    assert x.s.jobs == Answered(cfg, m, args).jobs;
    assert x.s.out == Answered(cfg, m, args).out && x.s.tags == Answered(cfg, m, args).tags;
  }

  lemma {:induction false} RunRespond(cfg: S.Config, m: string, args: Bytes) returns (steps: seq<Step>)
    requires IsRegistered(cfg.services, m)
    ensures Leads(cfg, steps, State(CallSent(m, args), Responded(cfg, m, args)))
  {
    steps := RunAnswer(cfg, m, args);
    var x, w := State(CallSent(m, args), Answered(cfg, m, args)), S.InnerOf(0);
    steps := OneMoreStep(cfg, steps, x, ByServer(S.Release(w)));
    assert Apply(x, ByServer(S.Release(w))).s.jobs == Responded(cfg, m, args).jobs;
  }

  /** The client after it has read the response. */
  function ReplyRead(m: string, args: Bytes): C.State {
    CallSent(m, args).(callers := [OneCaller(m, args).(reply := Some(S.INVALID))], pending := map[],
                       recv := C.Completing(Header(m, 1, ""), 0, true), read := 2)
  }

  function CallTaken(m: string, args: Bytes): C.State {
    CallSent(m, args).(pending := map[], recv := C.Reading(Header(m, 1, ""), Some(0)), read := 1)
  }

  lemma {:induction false} RunTake(cfg: S.Config, m: string, args: Bytes) returns (steps: seq<Step>)
    requires IsRegistered(cfg.services, m)
    ensures Leads(cfg, steps, State(CallTaken(m, args), Responded(cfg, m, args)))
  {
    steps := RunRespond(cfg, m, args);
    var x := State(CallSent(m, args), Responded(cfg, m, args));
    steps := OneMoreStep(cfg, steps, x, ByClient(C.ReadHead(Header(m, 1, ""))));
    x := Apply(x, ByClient(C.ReadHead(Header(m, 1, ""))));
    steps := OneMoreStep(cfg, steps, x, ByClient(C.Take));
    x := Apply(x, ByClient(C.Take));
    assert x.c == CallTaken(m, args);
  }

  lemma {:induction false} RunRead(cfg: S.Config, m: string, args: Bytes) returns (steps: seq<Step>)
    requires IsRegistered(cfg.services, m)
    ensures Leads(cfg, steps, State(ReplyRead(m, args), Responded(cfg, m, args)))
  {
    steps := RunTake(cfg, m, args);
    var x := State(CallTaken(m, args), Responded(cfg, m, args));
    steps := OneMoreStep(cfg, steps, x, ByClient(C.ReadBody(S.INVALID)));
    assert Apply(x, ByClient(C.ReadBody(S.INVALID))).c.callers == ReplyRead(m, args).callers;
  }

  /** The service failed, and its caller has returned with the placeholder for a result and no error. */
  ghost predicate FailureLost(x: State) {
    && |x.c.callers| == 1 == |x.s.jobs|
    && x.s.jobs[0].h.seqNo == x.c.callers[0].seqNo && x.s.jobs[0].result == Some(S.Fault(""))
    && x.c.callers[0].pc == C.Returned(false)
    && x.c.callers[0].reply == Some(S.INVALID) && x.c.callers[0].err == C.NoError
  }

  /** For every registered method and all arguments there is a run in which a failure is lost. */
  lemma {:induction false} EmptyErrorRun(cfg: S.Config, m: string, args: Bytes) returns (steps: seq<Step>)
    requires IsRegistered(cfg.services, m)
    ensures Exec(cfg, steps).Some? && CallsAreKnown(cfg, steps) && FailureLost(Exec(cfg, steps).value)
  {
    steps := RunRead(cfg, m, args);
    var x := State(ReplyRead(m, args), Responded(cfg, m, args));
    steps := OneMoreStep(cfg, steps, x, ByClient(C.Complete));
    x := Apply(x, ByClient(C.Complete));
    steps := OneMoreStep(cfg, steps, x, ByClient(C.Receive(0)));
  }
}
