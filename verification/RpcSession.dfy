/** One client and one server joined by two FIFO streams: what a call gets back. */
module RpcSession {
  import opened Basics
  import opened RpcLookup
  import opened RpcWire
  import C = RpcClient
  import S = RpcServer

  /** Each side reads what the other has written, in order: `c.out` and `s.out` are the streams,
      `s.read` and `c.read` how far they have been read. A read may also fail at any time. */
  datatype State = State(c: C.State, s: S.State)

  function Init(cfg: S.Config): State {
    State(C.INIT, S.Init(cfg))
  }

  datatype Step = ByClient(cs: C.Step) | ByServer(ss: S.Step)

  predicate NextIs(out: seq<Item>, read: nat, item: Item) {
    read < |out| && out[read] == item
  }

  predicate Enabled(x: State, step: Step) {
    match step
    case ByClient(cs) =>
      && C.Enabled(x.c, cs)
      && (cs.ReadHead? ==> NextIs(x.s.out, x.c.read, Head(cs.h)))
      && (cs.ReadBody? ==> NextIs(x.s.out, x.c.read, Body(cs.b)))
    case ByServer(ss) =>
      && S.Enabled(x.s, ss)
      && (ss.ReadHead? ==> NextIs(x.c.out, x.s.read, Head(ss.h)))
      && (ss.ReadBody? ==> NextIs(x.c.out, x.s.read, Body(ss.b)))
  }

  function Apply(x: State, step: Step): State
    requires Enabled(x, step)
  {
    match step
    case ByClient(cs) => x.(c := C.Apply(x.c, cs))
    case ByServer(ss) => x.(s := S.Apply(x.s, ss))
  }

  function Exec(cfg: S.Config, steps: seq<Step>): Option<State> {
    if steps == [] then Some(Init(cfg))
    else match Exec(cfg, steps[..|steps| - 1])
      case None => None
      case Some(x) =>
        var step := steps[|steps| - 1];
        if Enabled(x, step) then Some(Apply(x, step)) else None
  }

  /** Callers only ask for registered methods. */
  ghost predicate CallsAreKnown(cfg: S.Config, steps: seq<Step>) {
    forall i :: 0 <= i < |steps| && steps[i].ByClient? && steps[i].cs.Go? ==>
      IsRegistered(cfg.services, steps[i].cs.req.serviceMethod)
  }

  // ---------------------------------------------------------------------------------
  // The invariant

  /** `h` is the header of the request of the call that owns its number. */
  ghost predicate HeaderFrom(c: C.State, h: Header) {
    && h.seqNo in c.issued && c.issued[h.seqNo] < |c.callers|
    && h == Header(c.callers[c.issued[h.seqNo]].req.serviceMethod, h.seqNo, "")
  }

  ghost predicate JobFrom(c: C.State, job: S.Job) {
    HeaderFrom(c, job.h) && job.args == c.callers[c.issued[job.h.seqNo]].req.args
  }

  ghost predicate Known(c: C.State, cfg: S.Config) {
    forall t :: 0 <= t < |c.callers| ==> FindError(cfg.services, c.callers[t].req.serviceMethod) == None
  }

  /** The header the server holds is the item it read last, and every lookup so far succeeded. A
      failed read of a body counts as an item even when the body never came. */
  ghost predicate ReaderUp(c: C.State, s: S.State) {
    && s.read <= |c.out| + 1 && s.missed == 0
    && (s.reader.GotHead? || s.reader.GotService? ==> 0 < s.read <= |c.out| && c.out[s.read - 1] == Head(s.reader.h))
    && (s.reader.Rejecting? ==> HeaderFrom(c, s.reader.h))
  }

  /** What the server has taken from the stream, it has taken frame by frame. */
  ghost predicate UpOk(c: C.State, s: S.State) {
    && ReaderUp(c, s)
    && (forall j :: 0 <= j < |s.jobs| ==> JobFrom(c, s.jobs[j]))
    && (forall i :: 0 <= i < |s.tags| && s.tags[i].Rejected? ==> HeaderFrom(c, s.tags[i].h))
  }

  ghost predicate DownOk(c: C.State, s: S.State) {
    && c.read <= |s.out|
    && (c.recv.Looking? || c.recv.Reading? ==> c.read > 0 && s.out[c.read - 1] == Head(c.recv.h))
  }

  /** A frame of the down stream whose header carries `k` and `err`. */
  predicate FrameFor(out: seq<Item>, i: nat, k: nat, err: string) {
    i < |out| && i % 2 == 0 && out[i].Head? && out[i].h.seqNo == k && out[i].h.err == err
  }

  ghost predicate ReplyFrom(c: C.State, out: seq<Item>, t: nat)
    requires t < |c.callers|
  {
    var caller := c.callers[t];
    caller.reply.Some? ==>
      && caller.seqNo > 0
      && exists i: nat :: FrameFor(out, i, caller.seqNo, "") && NextIs(out, i + 1, Body(caller.reply.value))
  }

  ghost predicate ErrorFrom(c: C.State, out: seq<Item>, t: nat)
    requires t < |c.callers|
  {
    var caller := c.callers[t];
    caller.err.Reported? ==>
      caller.seqNo > 0 && caller.err.text != "" && exists i: nat :: FrameFor(out, i, caller.seqNo, caller.err.text)
  }

  /** A header with number `k` is among the first `n` items of the stream. */
  ghost predicate Seen(out: seq<Item>, n: int, k: nat) {
    exists i :: 0 <= i < |out| && i < n && HeadWith(out[i], k)
  }

  predicate HeadWith(item: Item, k: nat) {
    item.Head? && item.h.seqNo == k
  }

  /** How many items the server has dealt with: a header it still holds is not among them. */
  function Done(s: S.State): int {
    if s.reader.GotHead? || s.reader.GotService? then s.read - 1 else s.read
  }

  ghost predicate NoJob(s: S.State, k: nat) {
    forall j :: 0 <= j < |s.jobs| ==> s.jobs[j].h.seqNo != k
  }

  predicate Rejects(tag: S.Tag, k: nat) {
    tag.Rejected? && tag.h.seqNo == k
  }

  ghost predicate NoRejection(s: S.State, k: nat) {
    forall i :: 0 <= i < |s.tags| ==> !Rejects(s.tags[i], k)
  }

  ghost predicate JobOnce(c: C.State, s: S.State, j: nat)
    requires j < |s.jobs|
  {
    && Seen(c.out, Done(s), s.jobs[j].h.seqNo)
    && forall j' :: 0 <= j' < j ==> s.jobs[j'].h.seqNo != s.jobs[j].h.seqNo
  }

  ghost predicate TagOnce(c: C.State, s: S.State, i: nat)
    requires i < |s.tags|
  {
    s.tags[i].Rejected? ==>
      var k := s.tags[i].h.seqNo;
      && Seen(c.out, Done(s), k) && NoJob(s, k)
      && (i % 2 == 0 ==> forall i' :: 0 <= i' < i && i' % 2 == 0 ==> !Rejects(s.tags[i'], k))
  }

  ghost predicate RejectingOnce(c: C.State, s: S.State) {
    s.reader.Rejecting? ==>
      var k := s.reader.h.seqNo;
      && Seen(c.out, Done(s), k) && NoJob(s, k)
      && (s.reader.phase.NeedLock? || s.reader.phase.HeadNext? ==> NoRejection(s, k))
  }

  /** Each number has been accepted at most once or rejected at most once, and not both. */
  ghost predicate Once(c: C.State, s: S.State) {
    && (forall j :: 0 <= j < |s.jobs| ==> JobOnce(c, s, j))
    && (forall i :: 0 <= i < |s.tags| ==> TagOnce(c, s, i))
    && RejectingOnce(c, s)
  }

  /** What holds whatever methods the callers ask for. */
  ghost predicate Sound(x: State) {
    && C.Inv(x.c) && C.Framed(x.c) && S.Inv(x.s) && DownOk(x.c, x.s)
    && (forall t :: 0 <= t < |x.c.callers| ==> C.OneAnswer(x.c, t))
  }

  ghost predicate Inv(x: State) {
    && Sound(x) && Known(x.c, x.s.cfg) && UpOk(x.c, x.s) && Once(x.c, x.s)
    && (forall t :: 0 <= t < |x.c.callers| ==> ReplyFrom(x.c, x.s.out, t))
    && (forall t :: 0 <= t < |x.c.callers| ==> ErrorFrom(x.c, x.s.out, t))
  }

  // ---------------------------------------------------------------------------------
  // Steps of either side, for any methods

  lemma DownAfterClient(x: State, cs: C.Step)
    requires Sound(x) && Enabled(x, ByClient(cs))
    ensures DownOk(C.Apply(x.c, cs), x.s)
  {
  }

  lemma SoundClient(x: State, cs: C.Step)
    requires Sound(x) && Enabled(x, ByClient(cs))
    ensures Sound(Apply(x, ByClient(cs)))
  {
    C.InvStep(x.c, cs);
    C.FramedStep(x.c, cs);
    DownAfterClient(x, cs);
    forall t | 0 <= t < |C.Apply(x.c, cs).callers|
      ensures C.OneAnswer(C.Apply(x.c, cs), t)
    {
      if t < |x.c.callers| {
        C.OneAnswerStep(x.c, cs, t);
      } else {
        C.NewCallerIsOpen(x.c, cs, t);
      }
    }
  }

  lemma SoundServer(x: State, ss: S.Step)
    requires Sound(x) && Enabled(x, ByServer(ss))
    ensures Sound(Apply(x, ByServer(ss)))
  {
    S.InvStep(x.s, ss);
    S.WireGrows(x.s, ss);
  }

  lemma {:induction false} SoundHolds(cfg: S.Config, steps: seq<Step>)
    requires Exec(cfg, steps).Some?
    ensures Sound(Exec(cfg, steps).value)
  {
    if steps != [] {
      var before, step := steps[..|steps| - 1], steps[|steps| - 1];
      SoundHolds(cfg, before);
      match step
      case ByClient(cs) => SoundClient(Exec(cfg, before).value, cs);
      case ByServer(ss) => SoundServer(Exec(cfg, before).value, ss);
    }
  }

  // ---------------------------------------------------------------------------------
  // Steps of the client

  lemma HeaderStays(c: C.State, step: C.Step, h: Header)
    requires C.Inv(c) && C.Enabled(c, step) && HeaderFrom(c, h)
    ensures HeaderFrom(C.Apply(c, step), h)
    ensures c.issued[h.seqNo] == C.Apply(c, step).issued[h.seqNo]
    ensures c.callers[c.issued[h.seqNo]].req == C.Apply(c, step).callers[c.issued[h.seqNo]].req
  {
    C.IssuedKept(c, step, h.seqNo);
  }

  lemma OutGrows(c: C.State, step: C.Step)
    requires C.Enabled(c, step)
    ensures c.out <= C.Apply(c, step).out
  {
    if !C.Writes(step) {
      C.OutKept(c, step);
    }
  }

  lemma UpAfterClient(x: State, cs: C.Step)
    requires Inv(x) && Enabled(x, ByClient(cs))
    ensures UpOk(C.Apply(x.c, cs), x.s)
  {
    var c' := C.Apply(x.c, cs);
    OutGrows(x.c, cs);
    if x.s.reader.Rejecting? {
      HeaderStays(x.c, cs, x.s.reader.h);
    }
    forall j | 0 <= j < |x.s.jobs| ensures JobFrom(c', x.s.jobs[j]) {
      HeaderStays(x.c, cs, x.s.jobs[j].h);
    }
    forall i | 0 <= i < |x.s.tags| && x.s.tags[i].Rejected? ensures HeaderFrom(c', x.s.tags[i].h) {
      HeaderStays(x.c, cs, x.s.tags[i].h);
    }
  }

  lemma NewCaller(c: C.State, cs: C.Step, t: nat)
    requires C.Enabled(c, cs) && |c.callers| <= t < |C.Apply(c, cs).callers|
    ensures cs.Go? && C.Apply(c, cs).callers[t].req == cs.req
  {
  }

  lemma KnownAfterClient(x: State, cs: C.Step)
    requires Inv(x) && Enabled(x, ByClient(cs))
    requires cs.Go? ==> FindError(x.s.cfg.services, cs.req.serviceMethod) == None
    ensures Known(C.Apply(x.c, cs), x.s.cfg)
  {
    forall t | 0 <= t < |C.Apply(x.c, cs).callers|
      ensures FindError(x.s.cfg.services, C.Apply(x.c, cs).callers[t].req.serviceMethod) == None
    {
      if t < |x.c.callers| {
        C.RequestKept(x.c, cs, t);
      } else {
        NewCaller(x.c, cs, t);
      }
    }
  }

  lemma SeenGrows(out: seq<Item>, out': seq<Item>, n: int, n': int, k: nat)
    requires out <= out' && n <= n' && Seen(out, n, k)
    ensures Seen(out', n', k)
  {
    var i :| 0 <= i < |out| && i < n && HeadWith(out[i], k);
    assert HeadWith(out'[i], k);
  }

  lemma OnceAfterClient(x: State, cs: C.Step)
    requires Inv(x) && Enabled(x, ByClient(cs))
    ensures Once(C.Apply(x.c, cs), x.s)
  {
    var c', n := C.Apply(x.c, cs), Done(x.s);
    OutGrows(x.c, cs);
    forall j | 0 <= j < |x.s.jobs| ensures JobOnce(c', x.s, j) {
      assert JobOnce(x.c, x.s, j);
      SeenGrows(x.c.out, c'.out, n, n, x.s.jobs[j].h.seqNo);
    }
    forall i | 0 <= i < |x.s.tags| ensures TagOnce(c', x.s, i) {
      assert TagOnce(x.c, x.s, i);
      if x.s.tags[i].Rejected? {
        SeenGrows(x.c.out, c'.out, n, n, x.s.tags[i].h.seqNo);
      }
    }
    if x.s.reader.Rejecting? {
      SeenGrows(x.c.out, c'.out, n, n, x.s.reader.h.seqNo);
    }
  }

  /** The steps at which a call is given something. */
  predicate Gives(c: C.State, cs: C.Step, t: nat) {
    (cs.ReadBody? || cs.FailBody?) && c.recv.Reading? && c.recv.call == Some(t)
  }

  lemma NothingGiven(c: C.State, cs: C.Step, t: nat)
    requires C.Enabled(c, cs) && t < |c.callers| && !Gives(c, cs, t)
    ensures t < |C.Apply(c, cs).callers|
    ensures var before, after := c.callers[t], C.Apply(c, cs).callers[t];
            && after.reply == before.reply
            && (after.err.Reported? ==> after.err == before.err)
            && (before.seqNo > 0 ==> C.Inv(c) ==> after.seqNo == before.seqNo)
  {
    C.RequestKept(c, cs, t);
    if C.InReceive(cs) {
      NothingGivenInReceive(c, cs, t);
    } else if C.InSend(cs) {
      NothingGivenInSend(c, cs, t);
    }
  }

  lemma NothingGivenInReceive(c: C.State, cs: C.Step, t: nat)
    requires C.Enabled(c, cs) && C.InReceive(cs) && t < |c.callers| && !Gives(c, cs, t)
    ensures t < |C.Apply(c, cs).callers|
    ensures var before, after := c.callers[t], C.Apply(c, cs).callers[t];
            after.reply == before.reply && after.err == before.err && after.seqNo == before.seqNo
  {
    match cs
    case ReadHead(_) =>
    case FailHead =>
    case Take =>
    case ReadBody(_) =>
    case FailBody =>
    case Complete =>
  }

  lemma NothingGivenInSend(c: C.State, cs: C.Step, t: nat)
    requires C.Enabled(c, cs) && C.InSend(cs) && t < |c.callers|
    ensures t < |C.Apply(c, cs).callers|
    ensures var before, after := c.callers[t], C.Apply(c, cs).callers[t];
            && after.reply == before.reply
            && (after.err.Reported? ==> after.err == before.err)
            && (before.seqNo > 0 ==> C.Inv(c) ==> after.seqNo == before.seqNo)
  {
    match cs
    case Lock(_) =>
    case Register(_) => assert C.Inv(c) ==> C.CallerOk(c, t);
    case Refuse(_) =>
    case WriteHead(_, _) =>
    case WriteBody(_, _) =>
    case Unlock(_) =>
  }

  lemma RepliesStay(x: State, cs: C.Step, t: nat)
    requires Inv(x) && Enabled(x, ByClient(cs)) && t < |x.c.callers| && !Gives(x.c, cs, t)
    ensures t < |C.Apply(x.c, cs).callers|
    ensures ReplyFrom(C.Apply(x.c, cs), x.s.out, t) && ErrorFrom(C.Apply(x.c, cs), x.s.out, t)
  {
    NothingGiven(x.c, cs, t);
    assert ReplyFrom(x.c, x.s.out, t) && ErrorFrom(x.c, x.s.out, t);
  }

  /** The header the receive loop holds starts a frame for the call it has taken. */
  lemma TakenFrame(x: State, t: nat)
    requires Inv(x) && t < |x.c.callers| && x.c.recv.Reading? && x.c.recv.call == Some(t)
    ensures x.c.callers[t].seqNo > 0 && x.c.read > 0
    ensures FrameFor(x.s.out, x.c.read - 1, x.c.callers[t].seqNo, x.c.recv.h.err)
    ensures x.c.callers[t].reply == None && x.c.callers[t].err == C.NoError
  {
    assert C.CallerOk(x.c, t) && C.IssuedOk(x.c, x.c.recv.h.seqNo) && C.OneAnswer(x.c, t);
  }

  lemma RepliesGiven(x: State, cs: C.Step, t: nat)
    requires Inv(x) && Enabled(x, ByClient(cs)) && t < |x.c.callers| && Gives(x.c, cs, t)
    ensures ReplyFrom(C.Apply(x.c, cs), x.s.out, t) && ErrorFrom(C.Apply(x.c, cs), x.s.out, t)
  {
    TakenFrame(x, t);
    match cs
    case ReadBody(b) => assert NextIs(x.s.out, (x.c.read - 1) + 1, Body(b));
    case FailBody =>
  }

  lemma RepliesAfterClient(x: State, cs: C.Step, t: nat)
    requires Inv(x) && Enabled(x, ByClient(cs)) && t < |C.Apply(x.c, cs).callers|
    ensures ReplyFrom(C.Apply(x.c, cs), x.s.out, t) && ErrorFrom(C.Apply(x.c, cs), x.s.out, t)
  {
    if t >= |x.c.callers| {
      C.OnlyGoAdds(x.c, cs);
    } else {
      if Gives(x.c, cs, t) {
        RepliesGiven(x, cs, t);
      } else {
        RepliesStay(x, cs, t);
      }
    }
  }

  lemma InvClient(x: State, cs: C.Step)
    requires Inv(x) && Enabled(x, ByClient(cs))
    requires cs.Go? ==> FindError(x.s.cfg.services, cs.req.serviceMethod) == None
    ensures Inv(Apply(x, ByClient(cs)))
  {
    SoundClient(x, cs);
    UpAfterClient(x, cs);
    OnceAfterClient(x, cs);
    KnownAfterClient(x, cs);
    forall t | 0 <= t < |C.Apply(x.c, cs).callers|
      ensures ReplyFrom(C.Apply(x.c, cs), x.s.out, t) && ErrorFrom(C.Apply(x.c, cs), x.s.out, t)
    {
      RepliesAfterClient(x, cs, t);
    }
  }

  // ---------------------------------------------------------------------------------
  // Steps of the server

  /** The header the server holds is that of a request of the client. */
  lemma HeadIsFrom(x: State)
    requires Inv(x) && (x.s.reader.GotHead? || x.s.reader.GotService?)
    ensures HeaderFrom(x.c, x.s.reader.h)
    ensures FindError(x.s.cfg.services, x.s.reader.h.serviceMethod) == None
  {
    assert C.FrameOk(x.c, x.s.read - 1);
  }

  /** The body that follows it is that request's. */
  lemma BodyIsFrom(x: State, b: Bytes)
    requires Inv(x) && Enabled(x, ByServer(S.ReadBody(b)))
    ensures HeaderFrom(x.c, x.s.reader.h) && b == x.c.callers[x.c.issued[x.s.reader.h.seqNo]].req.args
  {
    HeadIsFrom(x);
    assert C.FrameOk(x.c, x.s.read);
  }

  lemma UpAfterJob(c: C.State, s: S.State, s': S.State)
    requires UpOk(c, s) && S.OnlyJobs(s, s')
    ensures UpOk(c, s')
  {
    forall i | 0 <= i < |s'.tags| && s'.tags[i].Rejected? ensures HeaderFrom(c, s'.tags[i].h) {
      assert i < |s.tags| && s'.tags[i] == s.tags[i];
    }
    forall j | 0 <= j < |s'.jobs| ensures JobFrom(c, s'.jobs[j]) {
      assert JobFrom(c, s.jobs[j]);
    }
  }

  lemma UpAfterRejection(c: C.State, s: S.State, s': S.State)
    requires UpOk(c, s) && S.OnlyRejection(s, s')
    requires s'.tags == s.tags || s'.tags == s.tags + [S.Rejected(s.reader.h, s.reader.err)]
    ensures UpOk(c, s')
  {
    forall i | 0 <= i < |s'.tags| && s'.tags[i].Rejected? ensures HeaderFrom(c, s'.tags[i].h) {
      assert i < |s.tags| ==> s'.tags[i] == s.tags[i];
    }
  }

  lemma UpAfterReader(x: State, ss: S.Step)
    requires Inv(x) && Enabled(x, ByServer(ss)) && S.ByReader(ss)
    ensures UpOk(x.c, S.Apply(x.s, ss))
  {
    match ss
    case ReadHead(_) =>
    case FailHead =>
    case Lookup => HeadIsFrom(x);
    case ReadBody(b) =>
      BodyIsFrom(x, b);
      forall j | 0 <= j < |S.Apply(x.s, ss).jobs| ensures JobFrom(x.c, S.Apply(x.s, ss).jobs[j]) {
        assert j < |x.s.jobs| ==> JobFrom(x.c, x.s.jobs[j]);
      }
    case FailBody(_) => HeadIsFrom(x);
    case CloseCodec =>
  }

  lemma UpAfterServer(x: State, ss: S.Step)
    requires Inv(x) && Enabled(x, ByServer(ss))
    ensures UpOk(x.c, S.Apply(x.s, ss))
  {
    if S.ByReader(ss) {
      UpAfterReader(x, ss);
    } else if !S.BySender(ss) {
      S.HandlerKeeps(x.s, ss);
      UpAfterJob(x.c, x.s, S.Apply(x.s, ss));
    } else if ss.w.TheReader? {
      S.RejectionKeeps(x.s, ss);
      UpAfterRejection(x.c, x.s, S.Apply(x.s, ss));
    } else {
      S.ResponseKeeps(x.s, ss);
      UpAfterJob(x.c, x.s, S.Apply(x.s, ss));
    }
  }

  /** The request whose header the server holds has been neither accepted nor rejected. */
  lemma HeldIsFresh(x: State)
    requires Inv(x) && (x.s.reader.GotHead? || x.s.reader.GotService?)
    ensures NoJob(x.s, x.s.reader.h.seqNo) && NoRejection(x.s, x.s.reader.h.seqNo)
  {
    var k := x.s.reader.h.seqNo;
    assert C.WrittenOnce(x.c, x.s.read - 1);
    assert !Seen(x.c.out, Done(x.s), k);
    forall j | 0 <= j < |x.s.jobs| ensures x.s.jobs[j].h.seqNo != k {
      assert JobOnce(x.c, x.s, j);
    }
    forall i | 0 <= i < |x.s.tags| ensures !Rejects(x.s.tags[i], k) {
      assert TagOnce(x.c, x.s, i);
    }
  }

  /** No request is accepted and no rejection written; the reader goes on and rejects nothing new. */
  ghost predicate NothingNew(s: S.State, s': S.State) {
    && Done(s) <= Done(s') && |s'.jobs| == |s.jobs| && s.tags <= s'.tags
    && (forall j :: 0 <= j < |s.jobs| ==> s'.jobs[j].h == s.jobs[j].h)
    && (forall i :: |s.tags| <= i < |s'.tags| ==> s'.tags[i].ForJob?)
  }

  lemma OnceKept(c: C.State, s: S.State, s': S.State)
    requires Once(c, s) && NothingNew(s, s') && RejectingOnce(c, s')
    ensures Once(c, s')
  {
    forall j | 0 <= j < |s'.jobs| ensures JobOnce(c, s', j) {
      assert JobOnce(c, s, j);
      SeenGrows(c.out, c.out, Done(s), Done(s'), s.jobs[j].h.seqNo);
    }
    forall i | 0 <= i < |s'.tags| ensures TagOnce(c, s', i) {
      if i < |s.tags| {
        assert TagOnce(c, s, i) && s'.tags[i] == s.tags[i];
        if s.tags[i].Rejected? {
          SeenGrows(c.out, c.out, Done(s), Done(s'), s.tags[i].h.seqNo);
        }
      }
    }
  }

  /** The server has read on past a header whose request is new to it. */
  lemma HeldIsSeen(x: State, n: int)
    requires Inv(x) && (x.s.reader.GotHead? || x.s.reader.GotService?) && n >= x.s.read
    ensures Seen(x.c.out, n, x.s.reader.h.seqNo)
  {
    assert HeadWith(x.c.out[x.s.read - 1], x.s.reader.h.seqNo);
  }

  lemma OnceWithJob(c: C.State, s: S.State, s': S.State, job: S.Job)
    requires Once(c, s) && s'.jobs == s.jobs + [job] && s'.tags == s.tags && Done(s) <= Done(s')
    requires !s'.reader.Rejecting?
    requires NoJob(s, job.h.seqNo) && NoRejection(s, job.h.seqNo) && Seen(c.out, Done(s'), job.h.seqNo)
    ensures Once(c, s')
  {
    forall j | 0 <= j < |s'.jobs| ensures JobOnce(c, s', j) {
      if j < |s.jobs| {
        assert JobOnce(c, s, j);
        SeenGrows(c.out, c.out, Done(s), Done(s'), s.jobs[j].h.seqNo);
      }
    }
    forall i | 0 <= i < |s'.tags| ensures TagOnce(c, s', i) {
      assert TagOnce(c, s, i);
      if s.tags[i].Rejected? {
        assert Rejects(s.tags[i], s.tags[i].h.seqNo);
        SeenGrows(c.out, c.out, Done(s), Done(s'), s.tags[i].h.seqNo);
      }
    }
  }

  lemma OnceAfterAccept(x: State, b: Bytes)
    requires Inv(x) && Enabled(x, ByServer(S.ReadBody(b)))
    ensures Once(x.c, S.Apply(x.s, S.ReadBody(b)))
  {
    var s' := S.Apply(x.s, S.ReadBody(b));
    HeldIsFresh(x);
    HeldIsSeen(x, Done(s'));
    OnceWithJob(x.c, x.s, s', s'.jobs[|x.s.jobs|]);
  }

  lemma OnceAfterFailBody(x: State, err: string)
    requires Inv(x) && Enabled(x, ByServer(S.FailBody(err)))
    ensures Once(x.c, S.Apply(x.s, S.FailBody(err)))
  {
    var s' := S.Apply(x.s, S.FailBody(err));
    HeldIsFresh(x);
    HeldIsSeen(x, Done(s'));
    OnceKept(x.c, x.s, s');
  }

  lemma OnceAfterReader(x: State, ss: S.Step)
    requires Inv(x) && Enabled(x, ByServer(ss))
    requires ss.ReadHead? || ss.FailHead? || ss.Lookup? || ss.CloseCodec?
    ensures Once(x.c, S.Apply(x.s, ss))
  {
    if x.s.reader.GotHead? {
      HeadIsFrom(x);
    }
    OnceKept(x.c, x.s, S.Apply(x.s, ss));
  }

  /** A rejection goes on the wire: its header where none of the same number is, its body behind it. */
  lemma OnceAfterRejection(c: C.State, s: S.State, s': S.State)
    requires Once(c, s) && S.OnlyRejection(s, s') && s'.tags == s.tags + [S.Rejected(s.reader.h, s.reader.err)]
    requires |s.tags| % 2 == 0 ==> s.reader.phase.HeadNext?
    requires s'.reader.Rejecting? ==> !s'.reader.phase.HeadNext?
    ensures Once(c, s')
  {
    var n := |s.tags|;
    forall j | 0 <= j < |s'.jobs| ensures JobOnce(c, s', j) {
      assert JobOnce(c, s, j);
    }
    forall i | 0 <= i < |s'.tags| ensures TagOnce(c, s', i) {
      if i < n {
        assert TagOnce(c, s, i) && s'.tags[i] == s.tags[i];
      } else if n % 2 == 0 {
        assert forall i' :: 0 <= i' < n ==> s'.tags[i'] == s.tags[i'];
      }
    }
  }

  lemma OnceAfterWrite(x: State, ss: S.Step)
    requires Inv(x) && Enabled(x, ByServer(ss))
    requires ss == S.WriteHead(S.TheReader, true) || ss == S.WriteBody(S.TheReader, true)
    ensures Once(x.c, S.Apply(x.s, ss))
  {
    assert S.Holding(x.s, S.TheReader);
    S.RejectionKeeps(x.s, ss);
    OnceAfterRejection(x.c, x.s, S.Apply(x.s, ss));
  }

  /** The steps of the handlers. */
  lemma OnceAfterJob(c: C.State, s: S.State, s': S.State)
    requires Once(c, s) && S.OnlyJobs(s, s')
    ensures Once(c, s')
  {
    if s'.reader.Rejecting? {
      forall i | 0 <= i < |s'.tags| && (s.reader.phase.NeedLock? || s.reader.phase.HeadNext?)
        ensures !Rejects(s'.tags[i], s.reader.h.seqNo)
      {
        assert i < |s.tags| ==> s'.tags[i] == s.tags[i];
      }
    }
    OnceKept(c, s, s');
  }

  /** A rejection waits for the lock, gives it back, or fails to be written. */
  lemma OnceAfterWait(c: C.State, s: S.State, s': S.State)
    requires Once(c, s) && S.OnlyRejection(s, s') && s'.tags == s.tags
    ensures Once(c, s')
  {
    OnceKept(c, s, s');
  }

  lemma OnceAfterRead(x: State, ss: S.Step)
    requires Inv(x) && Enabled(x, ByServer(ss)) && S.ByReader(ss)
    ensures Once(x.c, S.Apply(x.s, ss))
  {
    match ss
    case ReadBody(b) => OnceAfterAccept(x, b);
    case FailBody(err) => OnceAfterFailBody(x, err);
    case _ => OnceAfterReader(x, ss);
  }

  lemma OnceAfterServer(x: State, ss: S.Step)
    requires Inv(x) && Enabled(x, ByServer(ss))
    ensures Once(x.c, S.Apply(x.s, ss))
  {
    if S.ByReader(ss) {
      OnceAfterRead(x, ss);
    } else if S.BySender(ss) && ss.w.TheReader? {
      if S.Writes(ss) {
        OnceAfterWrite(x, ss);
      } else {
        S.RejectionKeeps(x.s, ss);
        OnceAfterWait(x.c, x.s, S.Apply(x.s, ss));
      }
    } else {
      if S.BySender(ss) {
        S.ResponseKeeps(x.s, ss);
      } else {
        S.HandlerKeeps(x.s, ss);
      }
      OnceAfterJob(x.c, x.s, S.Apply(x.s, ss));
    }
  }

  lemma InvServer(x: State, ss: S.Step)
    requires Inv(x) && Enabled(x, ByServer(ss))
    ensures Inv(Apply(x, ByServer(ss)))
  {
    SoundServer(x, ss);
    UpAfterServer(x, ss);
    OnceAfterServer(x, ss);
    S.WireGrows(x.s, ss);
    var s' := S.Apply(x.s, ss);
    forall t | 0 <= t < |x.c.callers|
      ensures ReplyFrom(x.c, s'.out, t) && ErrorFrom(x.c, s'.out, t)
    {
      FramesStay(x.c, x.s.out, s'.out, t);
    }
  }

  lemma FramesStay(c: C.State, out: seq<Item>, out': seq<Item>, t: nat)
    requires out <= out' && t < |c.callers| && ReplyFrom(c, out, t) && ErrorFrom(c, out, t)
    ensures ReplyFrom(c, out', t) && ErrorFrom(c, out', t)
  {
    var caller := c.callers[t];
    if caller.reply.Some? {
      var i: nat :| FrameFor(out, i, caller.seqNo, "") && NextIs(out, i + 1, Body(caller.reply.value));
      assert FrameFor(out', i, caller.seqNo, "") && NextIs(out', i + 1, Body(caller.reply.value));
    }
    if caller.err.Reported? {
      var i: nat :| FrameFor(out, i, caller.seqNo, caller.err.text);
      assert FrameFor(out', i, caller.seqNo, caller.err.text);
    }
  }

  lemma ConfigKept(x: State, step: Step)
    requires Enabled(x, step)
    ensures Apply(x, step).s.cfg == x.s.cfg
  {
    if step.ByServer? {
      S.WireGrows(x.s, step.ss);
    }
  }

  lemma InvStep(x: State, step: Step)
    requires Inv(x) && Enabled(x, step)
    requires step.ByClient? && step.cs.Go? ==> FindError(x.s.cfg.services, step.cs.req.serviceMethod) == None
    ensures Inv(Apply(x, step))
  {
    match step
    case ByClient(cs) => InvClient(x, cs);
    case ByServer(ss) => InvServer(x, ss);
  }

  lemma {:induction false} InvHolds(cfg: S.Config, steps: seq<Step>)
    requires Exec(cfg, steps).Some? && CallsAreKnown(cfg, steps)
    ensures Inv(Exec(cfg, steps).value) && Exec(cfg, steps).value.s.cfg == cfg
  {
    if steps != [] {
      var before, step := steps[..|steps| - 1], steps[|steps| - 1];
      InvHolds(cfg, before);
      ConfigKept(Exec(cfg, before).value, step);
      if step.ByClient? && step.cs.Go? {
        FoundIff(cfg.services, step.cs.req.serviceMethod);
      }
      InvStep(Exec(cfg, before).value, step);
    }
  }

  // ---------------------------------------------------------------------------------
  // End to end

  function Asked(caller: C.Caller): Header {
    Header(caller.req.serviceMethod, caller.seqNo, "")
  }

  /** The receive loop has given the call a result or an error from the server. */
  predicate Delivered(x: State, t: nat) {
    t < |x.c.callers| && (x.c.callers[t].reply.Some? || x.c.callers[t].err.Reported?)
  }

  /** Request `j` of the server is this call's own, and what the call was given is what the server
      produced for it. */
  ghost predicate AnsweredBy(x: State, t: nat, j: nat)
    requires t < |x.c.callers|
  {
    var caller := x.c.callers[t];
    && j < |x.s.jobs|
    && x.s.jobs[j].h == Asked(caller) && x.s.jobs[j].args == caller.req.args
    && S.Says(x.s.cfg, x.s.jobs[j])
    && (caller.reply.Some? ==> caller.reply.value == x.s.jobs[j].body && x.s.jobs[j].err == "")
    && (caller.err.Reported? ==> caller.err.text == x.s.jobs[j].err != "")
  }

  /** The server could not decode the body of this call's request, and said so. */
  ghost predicate RejectedAs(x: State, t: nat)
    requires t < |x.c.callers|
  {
    var caller := x.c.callers[t];
    caller.reply == None && caller.err.Reported? && S.Rejected(Asked(caller), caller.err.text) in x.s.tags
  }

  lemma FrameIsAnswer(x: State, t: nat, i: nat, err: string)
    requires Inv(x) && t < |x.c.callers| && x.c.callers[t].seqNo > 0
    requires FrameFor(x.s.out, i, x.c.callers[t].seqNo, err)
    ensures match x.s.tags[i]
            case ForJob(j) =>
              && j < |x.s.jobs| && x.s.jobs[j].h == Asked(x.c.callers[t]) && x.s.jobs[j].args == x.c.callers[t].req.args
              && S.Says(x.s.cfg, x.s.jobs[j]) && x.s.jobs[j].err == err
            case Rejected(h, e) => h == Asked(x.c.callers[t]) && e == err != ""
  {
    assert S.FrameOk(x.s, i) && C.CallerOk(x.c, t);
    if x.s.tags[i].ForJob? {
      assert JobFrom(x.c, x.s.jobs[x.s.tags[i].j]) && S.JobOk(x.s.cfg, x.s.jobs[x.s.tags[i].j]);
    } else {
      assert HeaderFrom(x.c, x.s.tags[i].h);
    }
  }

  lemma ReplyIsOwn(x: State, t: nat) returns (j: nat)
    requires Inv(x) && t < |x.c.callers| && x.c.callers[t].reply.Some?
    ensures AnsweredBy(x, t, j)
  {
    var caller := x.c.callers[t];
    assert ReplyFrom(x.c, x.s.out, t) && C.OneAnswer(x.c, t);
    var i: nat :| FrameFor(x.s.out, i, caller.seqNo, "") && NextIs(x.s.out, i + 1, Body(caller.reply.value));
    FrameIsAnswer(x, t, i, "");
    assert S.FrameOk(x.s, i) && S.FrameOk(x.s, i + 1);
    j := x.s.tags[i].j;
  }

  lemma ErrorIsOwn(x: State, t: nat)
    requires Inv(x) && t < |x.c.callers| && x.c.callers[t].err.Reported?
    ensures RejectedAs(x, t) || exists j: nat :: AnsweredBy(x, t, j)
  {
    var caller := x.c.callers[t];
    assert ErrorFrom(x.c, x.s.out, t) && C.OneAnswer(x.c, t);
    var i: nat :| FrameFor(x.s.out, i, caller.seqNo, caller.err.text);
    FrameIsAnswer(x, t, i, caller.err.text);
    if x.s.tags[i].ForJob? {
      assert AnsweredBy(x, t, x.s.tags[i].j);
    } else {
      assert x.s.tags[i] in x.s.tags;
    }
  }

  lemma JobsDiffer(x: State, j: nat, j': nat)
    requires Inv(x) && j < |x.s.jobs| && j' < |x.s.jobs| && x.s.jobs[j].h.seqNo == x.s.jobs[j'].h.seqNo
    ensures j == j'
  {
    assert JobOnce(x.c, x.s, j) && JobOnce(x.c, x.s, j');
  }

  /** A number that was rejected is not that of an accepted request. */
  lemma RejectedHasNoJob(x: State, h: Header, err: string)
    requires Inv(x) && S.Rejected(h, err) in x.s.tags
    ensures NoJob(x.s, h.seqNo)
  {
    var i :| 0 <= i < |x.s.tags| && x.s.tags[i] == S.Rejected(h, err);
    assert TagOnce(x.c, x.s, i);
  }

  /** The server accepts no request twice. */
  lemma OneRequestPerCall(cfg: S.Config, steps: seq<Step>, j: nat, j': nat)
    requires Exec(cfg, steps).Some? && CallsAreKnown(cfg, steps)
    requires var jobs := Exec(cfg, steps).value.s.jobs;
             j < |jobs| && j' < |jobs| && jobs[j].h.seqNo == jobs[j'].h.seqNo
    ensures j == j'
  {
    InvHolds(cfg, steps);
    JobsDiffer(Exec(cfg, steps).value, j, j');
  }

  /** The response stream holds at most one header for each call, whether it carries an answer or a
      rejection. */
  lemma OneResponsePerCall(cfg: S.Config, steps: seq<Step>, i: nat, i': nat, k: nat)
    requires Exec(cfg, steps).Some? && CallsAreKnown(cfg, steps)
    requires var out := Exec(cfg, steps).value.s.out;
             i < |out| && i' < |out| && HeadWith(out[i], k) && HeadWith(out[i'], k)
    ensures i == i'
  {
    InvHolds(cfg, steps);
    if i < i' {
      HeadsDiffer(Exec(cfg, steps).value, i, i', k);
    } else if i' < i {
      HeadsDiffer(Exec(cfg, steps).value, i', i, k);
    }
  }

  lemma HeadsDiffer(x: State, i: nat, i': nat, k: nat)
    requires Inv(x) && i < i' < |x.s.out| && HeadWith(x.s.out[i], k)
    ensures !HeadWith(x.s.out[i'], k)
  {
    if HeadWith(x.s.out[i'], k) {
      var tag, tag' := x.s.tags[i], x.s.tags[i'];
      assert S.FrameOk(x.s, i) && S.FrameOk(x.s, i');
      assert TagOnce(x.c, x.s, i) && TagOnce(x.c, x.s, i');
      assert Rejects(tag, k) == tag.Rejected? && Rejects(tag', k) == tag'.Rejected?;
      if tag.ForJob? && tag'.ForJob? {
        JobsDiffer(x, tag.j, tag'.j);
      }
    }
  }

  /**
   * In every interleaving of callers, handlers, timeouts and failures: what the receive loop gives
   * a call is what the server produced for that call's own method and arguments, in the only request
   * it accepted with the call's number, or it is the rejection of the only one it read. A call
   * abandoned at its deadline is given nothing.
   */
  lemma AnswersReachTheirCall(cfg: S.Config, steps: seq<Step>, t: nat)
    requires Exec(cfg, steps).Some? && CallsAreKnown(cfg, steps) && Delivered(Exec(cfg, steps).value, t)
    ensures var x := Exec(cfg, steps).value;
            && !x.c.callers[t].withdrawn
            && (RejectedAs(x, t) || exists j: nat :: AnsweredBy(x, t, j))
            && (RejectedAs(x, t) ==> NoJob(x.s, x.c.callers[t].seqNo))
            && forall j: nat :: j < |x.s.jobs| && x.s.jobs[j].h.seqNo == x.c.callers[t].seqNo ==> AnsweredBy(x, t, j)
  {
    InvHolds(cfg, steps);
    var x := Exec(cfg, steps).value;
    assert C.OneAnswer(x.c, t) && ReplyFrom(x.c, x.s.out, t) && ErrorFrom(x.c, x.s.out, t);
    SomeAnswer(x, t);
    if RejectedAs(x, t) {
      RejectedHasNoJob(x, Asked(x.c.callers[t]), x.c.callers[t].err.text);
    }
    forall j: nat | j < |x.s.jobs| && x.s.jobs[j].h.seqNo == x.c.callers[t].seqNo
      ensures AnsweredBy(x, t, j)
    {
      OwnJobAnswers(x, t, j);
    }
  }

  lemma SomeAnswer(x: State, t: nat)
    requires Inv(x) && Delivered(x, t)
    ensures RejectedAs(x, t) || exists j: nat :: AnsweredBy(x, t, j)
  {
    if x.c.callers[t].reply.Some? {
      var j := ReplyIsOwn(x, t);
    } else {
      ErrorIsOwn(x, t);
    }
  }

  lemma OwnJobAnswers(x: State, t: nat, j: nat)
    requires Inv(x) && Delivered(x, t)
    requires j < |x.s.jobs| && x.s.jobs[j].h.seqNo == x.c.callers[t].seqNo
    ensures AnsweredBy(x, t, j)
  {
    SomeAnswer(x, t);
    if RejectedAs(x, t) {
      RejectedHasNoJob(x, Asked(x.c.callers[t]), x.c.callers[t].err.text);
    } else {
      var j': nat :| AnsweredBy(x, t, j');
      JobsDiffer(x, j, j');
    }
  }

  /** No request of the server answers two calls. */
  lemma NoAnswerIsShared(cfg: S.Config, steps: seq<Step>, t: nat, u: nat, j: nat)
    requires Exec(cfg, steps).Some? && CallsAreKnown(cfg, steps)
    requires Delivered(Exec(cfg, steps).value, t) && Delivered(Exec(cfg, steps).value, u)
    requires AnsweredBy(Exec(cfg, steps).value, t, j) && AnsweredBy(Exec(cfg, steps).value, u, j)
    ensures t == u
  {
    InvHolds(cfg, steps);
    var x := Exec(cfg, steps).value;
    assert C.CallerOk(x.c, t) && C.CallerOk(x.c, u);
    assert ReplyFrom(x.c, x.s.out, t) && ErrorFrom(x.c, x.s.out, t);
    assert ReplyFrom(x.c, x.s.out, u) && ErrorFrom(x.c, x.s.out, u);
  }

  /** Whatever the server sends for a call abandoned at its deadline is dropped, for any methods. */
  lemma AbandonedGetsNothing(cfg: S.Config, steps: seq<Step>, t: nat)
    requires Exec(cfg, steps).Some? && t < |Exec(cfg, steps).value.c.callers|
    requires Exec(cfg, steps).value.c.callers[t].withdrawn
    ensures var caller := Exec(cfg, steps).value.c.callers[t];
            caller.reply == None && caller.err == C.NoError && caller.done == 0
  {
    SoundHolds(cfg, steps);
    var c := Exec(cfg, steps).value.c;
    assert C.OneAnswer(c, t) && C.CallerOk(c, t);
  }

  /** What the client reads next is what it expects: at the head of its loop a header, and behind a
      header its body. This needs no assumption on the methods asked for. */
  lemma ClientMeetsFrames(cfg: S.Config, steps: seq<Step>)
    requires Exec(cfg, steps).Some?
    ensures var x := Exec(cfg, steps).value;
            && (x.c.recv.AtHead? && x.c.read < |x.s.out| ==> x.s.out[x.c.read].Head?)
            && (x.c.recv.Reading? && x.c.read < |x.s.out| ==> x.s.out[x.c.read].Body?)
  {
    SoundHolds(cfg, steps);
    var x := Exec(cfg, steps).value;
    assert x.c.read < |x.s.out| ==> S.FrameOk(x.s, x.c.read);
  }

  /** And so does the server, as long as the methods asked for are registered. */
  lemma ServerMeetsFrames(cfg: S.Config, steps: seq<Step>)
    requires Exec(cfg, steps).Some? && CallsAreKnown(cfg, steps)
    ensures var x := Exec(cfg, steps).value;
            && (x.s.reader.AtHead? && x.s.read < |x.c.out| ==> x.c.out[x.s.read].Head?)
            && (x.s.reader.GotService? && x.s.read < |x.c.out| ==> x.c.out[x.s.read].Body?)
  {
    InvHolds(cfg, steps);
    var x := Exec(cfg, steps).value;
    assert x.s.read < |x.c.out| ==> C.FrameOk(x.c, x.s.read);
  }

  // ---------------------------------------------------------------------------------
  // Errors with an empty message

  /**
   * When the service of a call's own request failed with `msg` and its response was delivered, the
   * caller sees an error exactly when the message is not empty; an empty message travels like
   * success, with the placeholder body for a result.
   */
  lemma ErrorIsSeenIff(cfg: S.Config, steps: seq<Step>, t: nat, j: nat, msg: string)
    requires Exec(cfg, steps).Some? && CallsAreKnown(cfg, steps) && Delivered(Exec(cfg, steps).value, t)
    requires var x := Exec(cfg, steps).value;
             && j < |x.s.jobs| && x.s.jobs[j].h.seqNo == x.c.callers[t].seqNo
             && S.ByService(x.s.jobs[j]) && x.s.jobs[j].result == Some(S.Fault(msg))
    ensures AnsweredBy(Exec(cfg, steps).value, t, j)
    ensures var caller := Exec(cfg, steps).value.c.callers[t];
            && (caller.err == C.Reported(msg) <==> msg != "")
            && (msg == "" ==> caller.reply == Some(S.INVALID) && !caller.err.Reported?)
  {
    InvHolds(cfg, steps);
    var x := Exec(cfg, steps).value;
    OwnJobAnswers(x, t, j);
    assert S.JobOk(x.s.cfg, x.s.jobs[j]) && C.OneAnswer(x.c, t);
  }
}
