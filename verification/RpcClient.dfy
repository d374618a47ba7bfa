/** The RPC client as a state machine: any number of callers, the `receive` loop and `Close`,
    interleaved. Each critical section under `mu`, each item written or read and each `done()` is
    one step. A failed read or write, and a deadline, may happen at any time. */
module RpcClient {
  import opened Basics
  import opened RpcWire

  datatype Request = Request(serviceMethod: string, args: Bytes)

  /** `call.Error`. `Reported(text)` is `fmt.Errorf(text)` for a text from the server. */
  datatype CallError = NoError | ErrShutdown | Reported(text: string) | BadBody | Broken

  datatype Pc =
    | Sending         // in `send`, before `sending.Lock`
    | Registering     // holds `sending`
    | Refused         // registration failed, before `done`
    | WritingHead
    | WritingBody
    | Unlocking
    | Waiting         // in the `select` of `Call`
    | Withdrawing     // the deadline was chosen, before `removeCall`
    | Returned(timedOut: bool)

  /** One `Call`. `done` counts the sends on its one-slot channel. `withdrawn` records that the
      deadline took the call out of `pending` before it was completed. */
  datatype Caller = Caller(
    req: Request, seqNo: nat, pc: Pc,
    reply: Option<Bytes>, err: CallError, done: nat, withdrawn: bool)

  datatype Receiver =
    | AtHead
    | Looking(h: Header)
    | Reading(h: Header, call: Option<nat>)
    | Completing(h: Header, target: nat, ok: bool)
    | Terminating
    | Ended

  /** `issued` records who got each sequence number, `out` what has been written, and `read` how many
      items have been read; the program does not keep them. `dead`: nothing more reaches the wire. */
  datatype State = State(
    callers: seq<Caller>, pending: map<nat, nat>, next: nat, closing: bool, shutdown: bool,
    lock: Option<nat>, recv: Receiver, dead: bool,
    issued: map<nat, nat>, out: seq<Item>, read: nat)

  const INIT := State([], map[], 1, false, false, None, AtHead, false, map[], [], 0)

  datatype Step =
    | Go(req: Request)
    | Lock(t: nat)
    | Register(t: nat)
    | Refuse(t: nat)
    | WriteHead(t: nat, ok: bool)
    | WriteBody(t: nat, ok: bool)
    | Unlock(t: nat)
    | Receive(t: nat)
    | Deadline(t: nat)
    | Withdraw(t: nat)
    | Close
    | ReadHead(h: Header)
    | FailHead
    | Take
    | ReadBody(b: Bytes)
    | FailBody
    | Complete
    | Terminate

  predicate Is(s: State, t: nat, pc: Pc) {
    t < |s.callers| && s.callers[t].pc == pc
  }

  predicate Enabled(s: State, step: Step) {
    match step
    case Go(_) => true
    case Lock(t) => Is(s, t, Sending) && s.lock == None
    case Register(t) => Is(s, t, Registering)
    case Refuse(t) => Is(s, t, Refused)
    case WriteHead(t, ok) => Is(s, t, WritingHead) && (ok ==> !s.dead)
    case WriteBody(t, ok) => Is(s, t, WritingBody) && (ok ==> !s.dead)
    case Unlock(t) => Is(s, t, Unlocking)
    case Receive(t) => Is(s, t, Waiting) && s.callers[t].done > 0
    case Deadline(t) => Is(s, t, Waiting)
    case Withdraw(t) => Is(s, t, Withdrawing)
    case Close => true
    case ReadHead(_) => s.recv.AtHead?
    case FailHead => s.recv.AtHead?
    case Take => s.recv.Looking?
    case ReadBody(_) => s.recv.Reading? && (s.recv.call.Some? ==> s.recv.call.value < |s.callers|)
    case FailBody => s.recv.Reading? && (s.recv.call.Some? ==> s.recv.call.value < |s.callers|)
    case Complete => s.recv.Completing? && s.recv.target < |s.callers|
    case Terminate => s.recv.Terminating? && s.lock == None
  }

  function Put(s: State, t: nat, c: Caller): State
    requires t < |s.callers|
  {
    s.(callers := s.callers[t := c])
  }

  /** `registerCall` for caller `t`. */
  function Registered(s: State, t: nat): State
    requires t < |s.callers|
  {
    var c := s.callers[t];
    if s.shutdown || s.closing then Put(s, t, c.(err := ErrShutdown, pc := Refused))
    else Put(s.(pending := s.pending[s.next := t], issued := s.issued[s.next := t], next := s.next + 1),
             t, c.(seqNo := s.next, pc := WritingHead))
  }

  /** The call that `removeCall(seq)` returns. */
  function Find(pending: map<nat, nat>, seqNo: nat): Option<nat> {
    if seqNo in pending then Some(pending[seqNo]) else None
  }

  /** The loop of `terminateCalls` over `pending`. */
  function Completed(callers: seq<Caller>, pending: map<nat, nat>): seq<Caller> {
    seq(|callers|, i requires 0 <= i < |callers| =>
      if callers[i].seqNo in pending && pending[callers[i].seqNo] == i
      then callers[i].(err := Broken, done := callers[i].done + 1) else callers[i])
  }

  function Apply(s: State, step: Step): State
    requires Enabled(s, step)
  {
    match step
    case Go(req) => s.(callers := s.callers + [Caller(req, 0, Sending, None, NoError, 0, false)])
    case Lock(t) => Put(s, t, s.callers[t].(pc := Registering)).(lock := Some(t))
    case Register(t) => Registered(s, t)
    case Refuse(t) => Put(s, t, s.callers[t].(done := s.callers[t].done + 1, pc := Unlocking))
    case WriteHead(t, ok) =>
      var c := s.callers[t];
      if ok then Put(s, t, c.(pc := WritingBody)).(out := s.out + [Head(Header(c.req.serviceMethod, c.seqNo, ""))])
      else Put(s, t, c.(pc := Unlocking)).(dead := true)
    case WriteBody(t, ok) =>
      var c := s.callers[t];
      var s1 := Put(s, t, c.(pc := Unlocking));
      if ok then s1.(out := s.out + [Body(c.req.args)]) else s1.(dead := true)
    case Unlock(t) => Put(s, t, s.callers[t].(pc := Waiting)).(lock := None)
    case Receive(t) => Put(s, t, s.callers[t].(pc := Returned(false)))
    case Deadline(t) => Put(s, t, s.callers[t].(pc := Withdrawing))
    case Withdraw(t) =>
      var c := s.callers[t];
      var took := Find(s.pending, c.seqNo) == Some(t) && c.done == 0;
      Put(s, t, c.(pc := Returned(true), withdrawn := took)).(pending := s.pending - {c.seqNo})
    case Close => if s.shutdown then s else s.(closing := true, dead := true)
    case ReadHead(h) => s.(recv := Looking(h), read := s.read + 1)
    case FailHead => s.(recv := Terminating)
    case Take => s.(recv := Reading(s.recv.h, Find(s.pending, s.recv.h.seqNo)), pending := s.pending - {s.recv.h.seqNo})
    case ReadBody(b) =>
      var h := s.recv.h;
      if s.recv.call.None? then s.(recv := AtHead, read := s.read + 1)
      else
        var t := s.recv.call.value;
        var c := if h.err != "" then s.callers[t].(err := Reported(h.err)) else s.callers[t].(reply := Some(b));
        Put(s, t, c).(recv := Completing(h, t, true), read := s.read + 1)
    case FailBody =>
      var h := s.recv.h;
      if s.recv.call.None? then s.(recv := Terminating)
      else
        var t := s.recv.call.value;
        var c := s.callers[t].(err := if h.err != "" then Reported(h.err) else BadBody);
        Put(s, t, c).(recv := Completing(h, t, false))
    case Complete =>
      var t := s.recv.target;
      Put(s, t, s.callers[t].(done := s.callers[t].done + 1)).(recv := if s.recv.ok then AtHead else Terminating)
    case Terminate => s.(shutdown := true, callers := Completed(s.callers, s.pending), recv := Ended)
  }

  function Exec(steps: seq<Step>): Option<State> {
    if steps == [] then Some(INIT)
    else match Exec(steps[..|steps| - 1])
      case None => None
      case Some(s) =>
        var step := steps[|steps| - 1];
        if Enabled(s, step) then Some(Apply(s, step)) else None
  }

  // ---------------------------------------------------------------------------------
  // Every call is completed once

  predicate HoldsLock(pc: Pc) {
    pc.Registering? || pc.Refused? || pc.WritingHead? || pc.WritingBody? || pc.Unlocking?
  }

  predicate Unregistered(pc: Pc) {
    pc.Sending? || pc.Registering? || pc.Refused?
  }

  predicate InPending(s: State, t: nat)
    requires t < |s.callers|
  {
    s.callers[t].seqNo in s.pending && s.pending[s.callers[t].seqNo] == t
  }

  /** The receive loop has taken the call out of `pending` and will complete it. */
  predicate Taken(s: State, t: nat) {
    || (s.recv.Reading? && s.recv.call == Some(t))
    || (s.recv.Completing? && s.recv.target == t)
  }

  function One(b: bool): nat {
    if b then 1 else 0
  }

  ghost predicate CallerOk(s: State, t: nat)
    requires t < |s.callers|
  {
    var c := s.callers[t];
    && (HoldsLock(c.pc) ==> s.lock == Some(t))
    && (c.withdrawn ==> c.pc.Returned?)
    && (c.pc.WritingHead? || c.pc.WritingBody? ==> c.seqNo > 0)
    && (Taken(s, t) ==> c.seqNo > 0)
    && if c.seqNo == 0 then
         c.done == One(!Unregistered(c.pc)) && !c.withdrawn
       else
         && c.seqNo in s.issued && s.issued[c.seqNo] == t && !Unregistered(c.pc)
         && if s.recv.Ended? then c.done + One(c.withdrawn) == 1
            else One(InPending(s, t)) + One(Taken(s, t)) + c.done + One(c.withdrawn) == 1
  }

  ghost predicate PendingOk(s: State, k: nat)
    requires k in s.pending
  {
    k in s.issued && s.pending[k] == s.issued[k]
  }

  ghost predicate IssuedOk(s: State, k: nat)
    requires k in s.issued
  {
    0 < k < s.next && s.issued[k] < |s.callers| && s.callers[s.issued[k]].seqNo == k
  }

  /** What the receive loop has taken has the number of the header it read. */
  ghost predicate ReceiverOk(s: State) {
    && (s.recv.Reading? && s.recv.call.Some? ==>
          s.recv.h.seqNo in s.issued && s.issued[s.recv.h.seqNo] == s.recv.call.value)
    && (s.recv.Completing? ==> s.recv.h.seqNo in s.issued && s.issued[s.recv.h.seqNo] == s.recv.target)
  }

  ghost predicate Inv(s: State) {
    && (forall t :: 0 <= t < |s.callers| ==> CallerOk(s, t))
    && (forall k :: k in s.pending ==> PendingOk(s, k))
    && (forall k :: k in s.issued ==> IssuedOk(s, k))
    && s.next > 0
    && (s.shutdown <==> s.recv.Ended?)
    && (s.lock.Some? ==> s.lock.value < |s.callers| && HoldsLock(s.callers[s.lock.value].pc))
    && ReceiverOk(s)
  }

  lemma InvRegistered(s: State, t: nat)
    requires Inv(s) && Enabled(s, Register(t)) && !s.shutdown && !s.closing
    ensures Inv(Apply(s, Register(t)))
  {
    var s' := Apply(s, Register(t));
    assert CallerOk(s, t);
    forall u | 0 <= u < |s'.callers| ensures CallerOk(s', u) {
      assert CallerOk(s, u);
      assert s.callers[u].seqNo > 0 ==> IssuedOk(s, s.callers[u].seqNo);
    }
    forall k | k in s'.issued ensures IssuedOk(s', k) {
      assert k in s.issued ==> IssuedOk(s, k);
    }
    forall k | k in s'.pending ensures PendingOk(s', k) {
      assert k in s.pending ==> PendingOk(s, k) && IssuedOk(s, k);
    }
  }

  lemma InvTerminate(s: State)
    requires Inv(s) && Enabled(s, Terminate)
    ensures Inv(Apply(s, Terminate))
  {
    var s' := Apply(s, Terminate);
    forall u | 0 <= u < |s'.callers| ensures CallerOk(s', u) {
      assert CallerOk(s, u);
    }
    forall k | k in s'.issued ensures IssuedOk(s', k) {
      assert IssuedOk(s, k);
    }
    forall k | k in s'.pending ensures PendingOk(s', k) {
      assert PendingOk(s, k);
    }
  }

  /** A new call, or `Close`. */
  lemma InvOpen(s: State, step: Step)
    requires Inv(s) && Enabled(s, step) && (step.Go? || step.Close?)
    ensures Inv(Apply(s, step))
  {
    var s' := Apply(s, step);
    forall u | 0 <= u < |s'.callers| ensures CallerOk(s', u) {
      assert u < |s.callers| ==> CallerOk(s, u);
    }
    forall k | k in s'.issued ensures IssuedOk(s', k) {
      assert IssuedOk(s, k);
    }
    forall k | k in s'.pending ensures PendingOk(s', k) {
      assert PendingOk(s, k);
    }
  }

  /** Nothing changes but caller `t`, the lock it may hold, and where the receive loop is with it. */
  ghost predicate OnlyCaller(s: State, s': State, t: nat) {
    && t < |s.callers| == |s'.callers|
    && (forall u :: 0 <= u < |s.callers| && u != t ==> s'.callers[u] == s.callers[u] && Taken(s', u) == Taken(s, u))
    && s'.callers[t].seqNo == s.callers[t].seqNo
    && s'.pending == s.pending && s'.issued == s.issued && s'.next == s.next
    && s'.recv.Ended? == s.recv.Ended? && s'.shutdown == s.shutdown && ReceiverOk(s')
    && (s'.lock == s.lock || (s.lock == None && s'.lock == Some(t)) || (s.lock == Some(t) && s'.lock == None))
    && (s'.lock == Some(t) ==> HoldsLock(s'.callers[t].pc))
  }

  lemma InvLocal(s: State, s': State, t: nat)
    requires Inv(s) && OnlyCaller(s, s', t) && CallerOk(s', t)
    ensures Inv(s')
  {
    forall u | 0 <= u < |s'.callers| ensures CallerOk(s', u) {
      assert CallerOk(s, u);
    }
    forall k | k in s'.issued ensures IssuedOk(s', k) {
      assert IssuedOk(s, k);
    }
    forall k | k in s'.pending ensures PendingOk(s', k) {
      assert PendingOk(s, k);
    }
  }

  lemma InvRefused(s: State, t: nat)
    requires Inv(s) && Enabled(s, Register(t)) && (s.shutdown || s.closing)
    ensures Inv(Apply(s, Register(t)))
  {
    assert CallerOk(s, t);
    InvLocal(s, Apply(s, Register(t)), t);
  }

  lemma InvLock(s: State, step: Step)
    requires Inv(s) && Enabled(s, step) && (step.Lock? || step.Unlock?)
    ensures Inv(Apply(s, step))
  {
    assert CallerOk(s, step.t);
    InvLocal(s, Apply(s, step), step.t);
  }

  lemma InvSelect(s: State, step: Step)
    requires Inv(s) && Enabled(s, step) && (step.Receive? || step.Deadline? || step.Refuse?)
    ensures Inv(Apply(s, step))
  {
    assert CallerOk(s, step.t);
    InvLocal(s, Apply(s, step), step.t);
  }

  lemma InvWriteHead(s: State, t: nat, ok: bool)
    requires Inv(s) && Enabled(s, WriteHead(t, ok))
    ensures Inv(Apply(s, WriteHead(t, ok)))
  {
    assert CallerOk(s, t);
    InvLocal(s, Apply(s, WriteHead(t, ok)), t);
  }

  lemma InvWriteBody(s: State, t: nat, ok: bool)
    requires Inv(s) && Enabled(s, WriteBody(t, ok))
    ensures Inv(Apply(s, WriteBody(t, ok)))
  {
    assert CallerOk(s, t);
    InvLocal(s, Apply(s, WriteBody(t, ok)), t);
  }

  /** The end of a round of the receive loop, for a call it has taken. */
  lemma InvFinish(s: State, step: Step, t: nat)
    requires Inv(s) && Enabled(s, step) && Taken(s, t)
    requires step.ReadBody? || step.FailBody? || step.Complete?
    ensures Inv(Apply(s, step))
  {
    assert t < |s.callers| && CallerOk(s, t);
    InvLocal(s, Apply(s, step), t);
  }

  /** The steps of the receive loop that touch no call. */
  lemma InvReader(s: State, step: Step)
    requires Inv(s) && Enabled(s, step)
    requires step.ReadHead? || step.FailHead? || ((step.ReadBody? || step.FailBody?) && s.recv.call == None)
    ensures Inv(Apply(s, step))
  {
    var s' := Apply(s, step);
    forall u | 0 <= u < |s'.callers| ensures CallerOk(s', u) {
      assert CallerOk(s, u);
    }
    forall k | k in s'.issued ensures IssuedOk(s', k) {
      assert IssuedOk(s, k);
    }
    forall k | k in s'.pending ensures PendingOk(s', k) {
      assert PendingOk(s, k);
    }
  }

  /** `removeCall` in the receive loop. */
  lemma InvTake(s: State)
    requires Inv(s) && Enabled(s, Take)
    ensures Inv(Apply(s, Take))
  {
    var s', k0 := Apply(s, Take), s.recv.h.seqNo;
    assert k0 in s.pending ==> PendingOk(s, k0) && IssuedOk(s, k0);
    forall k | k in s'.issued ensures IssuedOk(s', k) {
      assert IssuedOk(s, k);
    }
    forall k | k in s'.pending ensures PendingOk(s', k) {
      assert PendingOk(s, k);
    }
    forall u | 0 <= u < |s'.callers| ensures CallerOk(s', u) {
      assert CallerOk(s, u);
    }
  }

  /** `removeCall` at a deadline. A call that was never registered has number 0, which nobody has. */
  lemma InvWithdraw(s: State, t: nat)
    requires Inv(s) && Enabled(s, Withdraw(t))
    ensures Inv(Apply(s, Withdraw(t)))
  {
    var s' := Apply(s, Withdraw(t));
    assert CallerOk(s, t);
    WithdrawPending(s, t);
    forall k | k in s'.issued ensures IssuedOk(s', k) {
      assert IssuedOk(s, k);
    }
    forall u | 0 <= u < |s'.callers| ensures CallerOk(s', u) {
      if u == t { WithdrawOwn(s, t); } else { WithdrawOther(s, t, u); }
    }
  }

  lemma WithdrawPending(s: State, t: nat)
    requires Inv(s) && Enabled(s, Withdraw(t))
    ensures var s' := Apply(s, Withdraw(t)); forall k :: k in s'.pending ==> PendingOk(s', k)
  {
    var s' := Apply(s, Withdraw(t));
    assert CallerOk(s, t);
    forall k | k in s'.pending ensures PendingOk(s', k) {
      assert PendingOk(s, k);
    }
  }

  lemma WithdrawOwn(s: State, t: nat)
    requires Inv(s) && Enabled(s, Withdraw(t))
    ensures CallerOk(Apply(s, Withdraw(t)), t)
  {
    var s', k0 := Apply(s, Withdraw(t)), s.callers[t].seqNo;
    assert CallerOk(s, t);
    assert k0 in s.pending ==> PendingOk(s, k0) && IssuedOk(s, k0);
    assert s'.recv == s.recv && Taken(s', t) == Taken(s, t) && !InPending(s', t);
  }

  lemma WithdrawOther(s: State, t: nat, u: nat)
    requires Inv(s) && Enabled(s, Withdraw(t)) && u < |s.callers| && u != t
    ensures CallerOk(Apply(s, Withdraw(t)), u)
  {
    var s', k0 := Apply(s, Withdraw(t)), s.callers[t].seqNo;
    assert CallerOk(s, t) && CallerOk(s, u);
    assert s'.recv == s.recv && Taken(s', u) == Taken(s, u) && s'.callers[u] == s.callers[u];
    assert InPending(s, u) ==> s.callers[u].seqNo != k0;
    assert InPending(s', u) == InPending(s, u);
  }

  lemma InvStep(s: State, step: Step)
    requires Inv(s) && Enabled(s, step)
    ensures Inv(Apply(s, step))
  {
    match step
    case Go(_) => InvOpen(s, step);
    case Close => InvOpen(s, step);
    case Register(t) => if s.shutdown || s.closing { InvRefused(s, t); } else { InvRegistered(s, t); }
    case Lock(_) => InvLock(s, step);
    case Unlock(_) => InvLock(s, step);
    case WriteHead(t, ok) => InvWriteHead(s, t, ok);
    case WriteBody(t, ok) => InvWriteBody(s, t, ok);
    case Withdraw(t) => InvWithdraw(s, t);
    case ReadHead(_) => InvReader(s, step);
    case FailHead => InvReader(s, step);
    case Take => InvTake(s);
    case ReadBody(_) => if s.recv.call.Some? { InvFinish(s, step, s.recv.call.value); } else { InvReader(s, step); }
    case FailBody => if s.recv.call.Some? { InvFinish(s, step, s.recv.call.value); } else { InvReader(s, step); }
    case Complete => InvFinish(s, step, s.recv.target);
    case Terminate => InvTerminate(s);
    case _ => InvSelect(s, step);
  }

  lemma {:induction false} InvHolds(steps: seq<Step>)
    requires Exec(steps).Some?
    ensures Inv(Exec(steps).value)
  {
    if steps != [] {
      InvHolds(steps[..|steps| - 1]);
      InvStep(Exec(steps[..|steps| - 1]).value, steps[|steps| - 1]);
    }
  }

  /** Each call is completed at most once, in every interleaving, and never after its own deadline
      has withdrawn it. */
  lemma CompletedAtMostOnce(steps: seq<Step>, t: nat)
    requires Exec(steps).Some? && t < |Exec(steps).value.callers|
    ensures var c := Exec(steps).value.callers[t]; c.done <= 1 && (c.withdrawn ==> c.done == 0)
  {
    InvHolds(steps);
    assert CallerOk(Exec(steps).value, t);
  }

  /** The calls whose `done()` a step runs. */
  predicate Completes(s: State, step: Step, t: nat) {
    t < |s.callers| &&
    match step
    case Refuse(u) => u == t
    case Complete => s.recv.Completing? && s.recv.target == t
    case Terminate => InPending(s, t)
    case _ => false
  }

  /** So `done()` always finds the one-slot channel empty and never blocks, not even inside
      `terminateCalls`, which runs it while holding both locks. */
  lemma DoneNeverBlocks(steps: seq<Step>, step: Step, t: nat)
    requires Exec(steps).Some? && Enabled(Exec(steps).value, step) && Completes(Exec(steps).value, step, t)
    ensures Exec(steps).value.callers[t].done == 0
    ensures Apply(Exec(steps).value, step).callers[t].done == 1
  {
    InvHolds(steps);
    assert CallerOk(Exec(steps).value, t);
  }

  /** Once `terminateCalls` has run, every call that got as far as registering has been completed
      exactly once, unless its own deadline withdrew it first; so no caller waits in vain. */
  lemma TerminationCompletesAll(steps: seq<Step>, t: nat)
    requires Exec(steps).Some? && Exec(steps).value.recv.Ended?
    requires t < |Exec(steps).value.callers| && !Unregistered(Exec(steps).value.callers[t].pc)
    ensures var c := Exec(steps).value.callers[t]; c.done == if c.withdrawn then 0 else 1
    ensures var s := Exec(steps).value; s.callers[t].pc.Waiting? ==> Enabled(s, Receive(t))
  {
    InvHolds(steps);
    assert CallerOk(Exec(steps).value, t);
  }

  /** And no call registers after that. */
  lemma NothingRegistersAfterTermination(steps: seq<Step>, t: nat)
    requires Exec(steps).Some? && Exec(steps).value.recv.Ended? && Enabled(Exec(steps).value, Register(t))
    ensures Apply(Exec(steps).value, Register(t)).pending == Exec(steps).value.pending
  {
    InvHolds(steps);
  }

  // ---------------------------------------------------------------------------------
  // Framing

  ghost predicate FrameOk(s: State, i: nat)
    requires i < |s.out|
  {
    if i % 2 == 0 then
      && s.out[i].Head?
      && var h := s.out[i].h;
      && h.seqNo in s.issued && s.issued[h.seqNo] < |s.callers|
      && h == Header(s.callers[s.issued[h.seqNo]].req.serviceMethod, h.seqNo, "")
    else
      && s.out[i - 1].Head?
      && var k := s.out[i - 1].h.seqNo;
      && k in s.issued && s.issued[k] < |s.callers|
      && s.out[i] == Body(s.callers[s.issued[k]].req.args)
  }

  /** A caller is between its header and its body. */
  predicate MidFrame(s: State) {
    s.lock.Some? && s.lock.value < |s.callers| && s.callers[s.lock.value].pc.WritingBody?
  }

  /** An odd number of items means a header without its body: only while the caller that holds
      `sending` is between the two, or after the connection has failed. */
  ghost predicate WriterOk(s: State) {
    !s.dead ==>
      && (|s.out| % 2 == 1 <==> MidFrame(s))
      && (MidFrame(s) ==> EndsWithHead(s.out, s.callers[s.lock.value].seqNo))
  }

  predicate EndsWithHead(out: seq<Item>, k: nat) {
    out != [] && out[|out| - 1].Head? && out[|out| - 1].h.seqNo == k
  }

  /** A header on the wire is the only one with its number, and its caller is past writing it. */
  ghost predicate WrittenOnce(s: State, i: nat)
    requires i < |s.out|
  {
    s.out[i].Head? ==>
      var k := s.out[i].h.seqNo;
      && k in s.issued && s.issued[k] < |s.callers| && !s.callers[s.issued[k]].pc.WritingHead?
      && forall j :: 0 <= j < i && s.out[j].Head? ==> s.out[j].h.seqNo != k
  }

  ghost predicate Framed(s: State) {
    && (forall i :: 0 <= i < |s.out| ==> FrameOk(s, i))
    && (forall i :: 0 <= i < |s.out| ==> WrittenOnce(s, i))
    && WriterOk(s) && Aligned(s)
  }

  /** How many items the reader has taken: an even number at the head of its loop. */
  ghost predicate Aligned(s: State) {
    match s.recv
    case AtHead => s.read % 2 == 0
    case Looking(_) => s.read % 2 == 1
    case Reading(_, _) => s.read % 2 == 1
    case Completing(_, _, ok) => ok ==> s.read % 2 == 0
    case Terminating => true
    case Ended => true
  }

  predicate InSend(step: Step) {
    step.Lock? || step.Register? || step.Refuse? || step.WriteHead? || step.WriteBody? || step.Unlock?
  }

  predicate InReceive(step: Step) {
    step.ReadHead? || step.FailHead? || step.Take? || step.ReadBody? || step.FailBody? || step.Complete?
  }

  lemma RequestKeptInSend(s: State, step: Step, t: nat)
    requires Enabled(s, step) && t < |s.callers| && InSend(step)
    ensures var s' := Apply(s, step);
            && |s.callers| <= |s'.callers|
            && s'.callers[t].req == s.callers[t].req
  {
    match step
    case Lock(_) =>
    case Register(_) =>
    case Refuse(_) =>
    case WriteHead(_, _) =>
    case WriteBody(_, _) =>
    case Unlock(_) =>
  }

  lemma RequestKeptInReceive(s: State, step: Step, t: nat)
    requires Enabled(s, step) && t < |s.callers| && InReceive(step)
    ensures var s' := Apply(s, step);
            && |s.callers| <= |s'.callers|
            && s'.callers[t].req == s.callers[t].req
  {
    match step
    case ReadHead(_) =>
    case FailHead =>
    case Take =>
    case ReadBody(_) =>
    case FailBody =>
    case Complete =>
  }

  lemma RequestKept(s: State, step: Step, t: nat)
    requires Enabled(s, step) && t < |s.callers|
    ensures var s' := Apply(s, step);
            && |s.callers| <= |s'.callers|
            && s'.callers[t].req == s.callers[t].req
  {
    if InSend(step) {
      RequestKeptInSend(s, step, t);
    } else if InReceive(step) {
      RequestKeptInReceive(s, step, t);
    }
  }

  /** What was issued stays issued, to a caller whose request stays the same. */
  lemma IssuedKept(s: State, step: Step, k: nat)
    requires Inv(s) && Enabled(s, step) && k in s.issued
    ensures var s' := Apply(s, step);
            && k in s'.issued && s'.issued[k] == s.issued[k] < |s.callers| <= |s'.callers|
            && s'.callers[s.issued[k]].req == s.callers[s.issued[k]].req
  {
    assert IssuedOk(s, k);
    RequestKept(s, step, s.issued[k]);
  }

  predicate Writes(step: Step) {
    (step.WriteHead? || step.WriteBody?) && step.ok
  }

  lemma OutKept(s: State, step: Step)
    requires Enabled(s, step) && !Writes(step)
    ensures Apply(s, step).out == s.out
  {
    if InReceive(step) {
      OutKeptInReceive(s, step);
    }
  }

  lemma OutKeptInReceive(s: State, step: Step)
    requires Enabled(s, step) && InReceive(step)
    ensures Apply(s, step).out == s.out
  {
    match step
    case ReadHead(_) =>
    case FailHead =>
    case Take =>
    case ReadBody(_) =>
    case FailBody =>
    case Complete =>
  }

  lemma FrameKept(s: State, step: Step, i: nat)
    requires Inv(s) && Framed(s) && Enabled(s, step) && i < |s.out|
    ensures i < |Apply(s, step).out| && FrameOk(Apply(s, step), i)
  {
    if !Writes(step) {
      OutKept(s, step);
    }
    assert FrameOk(s, i);
    IssuedKept(s, step, s.out[i - i % 2].h.seqNo);
  }

  lemma FrameWritten(s: State, step: Step)
    requires Inv(s) && Framed(s) && Enabled(s, step) && Writes(step)
    ensures |Apply(s, step).out| == |s.out| + 1 && FrameOk(Apply(s, step), |s.out|)
  {
    assert CallerOk(s, step.t) && IssuedOk(s, s.callers[step.t].seqNo);
    if step.WriteBody? {
      assert FrameOk(s, |s.out| - 1);
    }
  }

  lemma FramesStep(s: State, step: Step, i: nat)
    requires Inv(s) && Framed(s) && Enabled(s, step) && i < |Apply(s, step).out|
    ensures FrameOk(Apply(s, step), i)
  {
    if i < |s.out| {
      FrameKept(s, step, i);
    } else if Writes(step) {
      FrameWritten(s, step);
    } else {
      OutKept(s, step);
    }
  }

  /** A registered caller does not come back to the point before its header. */
  lemma PastHead(s: State, step: Step, t: nat)
    requires Inv(s) && Enabled(s, step) && t < |s.callers| && s.callers[t].seqNo > 0 && !s.callers[t].pc.WritingHead?
    ensures t < |Apply(s, step).callers| && !Apply(s, step).callers[t].pc.WritingHead?
  {
    assert CallerOk(s, t);
    RequestKept(s, step, t);
    if InReceive(step) {
      PastHeadInReceive(s, step, t);
    }
  }

  lemma PastHeadInReceive(s: State, step: Step, t: nat)
    requires Enabled(s, step) && InReceive(step) && t < |s.callers|
    ensures t < |Apply(s, step).callers| && Apply(s, step).callers[t].pc == s.callers[t].pc
  {
    match step
    case ReadHead(_) =>
    case FailHead =>
    case Take =>
    case ReadBody(_) =>
    case FailBody =>
    case Complete =>
  }

  lemma WrittenOnceKept(s: State, step: Step, i: nat)
    requires Inv(s) && Framed(s) && Enabled(s, step) && i < |s.out|
    ensures s.out <= Apply(s, step).out && WrittenOnce(Apply(s, step), i)
  {
    if !Writes(step) {
      OutKept(s, step);
    }
    assert WrittenOnce(s, i);
    if s.out[i].Head? {
      var k := s.out[i].h.seqNo;
      assert IssuedOk(s, k);
      IssuedKept(s, step, k);
      PastHead(s, step, s.issued[k]);
    }
  }

  lemma HeadWrittenOnce(s: State, t: nat)
    requires Inv(s) && Framed(s) && Enabled(s, WriteHead(t, true))
    ensures WrittenOnce(Apply(s, WriteHead(t, true)), |s.out|)
  {
    assert CallerOk(s, t);
    forall j | 0 <= j < |s.out| && s.out[j].Head?
      ensures s.out[j].h.seqNo != s.callers[t].seqNo
    {
      assert WrittenOnce(s, j);
    }
  }

  lemma WrittenOnceStep(s: State, step: Step, i: nat)
    requires Inv(s) && Framed(s) && Enabled(s, step) && i < |Apply(s, step).out|
    ensures WrittenOnce(Apply(s, step), i)
  {
    if i < |s.out| {
      WrittenOnceKept(s, step, i);
    } else if !Writes(step) {
      OutKept(s, step);
    } else if step.WriteHead? {
      HeadWrittenOnce(s, step.t);
    }
  }

  lemma WriterWrites(s: State, step: Step)
    requires Inv(s) && Framed(s) && Enabled(s, step) && (step.WriteHead? || step.WriteBody?)
    ensures WriterOk(Apply(s, step))
  {
    assert CallerOk(s, step.t);
  }

  lemma WriterLocks(s: State, step: Step)
    requires Inv(s) && Framed(s) && Enabled(s, step)
    requires step.Lock? || step.Unlock? || step.Register? || step.Refuse?
    ensures WriterOk(Apply(s, step))
  {
    assert CallerOk(s, step.t);
  }

  lemma WriterReads(s: State, step: Step)
    requires Inv(s) && Framed(s) && Enabled(s, step) && InReceive(step)
    ensures WriterOk(Apply(s, step))
  {
    if s.lock.Some? {
      assert CallerOk(s, s.lock.value);
    }
    match step
    case ReadHead(_) =>
    case FailHead =>
    case Take =>
    case ReadBody(_) =>
    case FailBody =>
    case Complete =>
  }

  lemma WriterIdle(s: State, step: Step)
    requires Inv(s) && Framed(s) && Enabled(s, step)
    requires !(step.WriteHead? || step.WriteBody? || step.Lock? || step.Unlock? || step.Register? || step.Refuse?)
    ensures WriterOk(Apply(s, step))
  {
    if s.lock.Some? {
      assert CallerOk(s, s.lock.value);
    }
    match step
    case Go(_) =>
    case Receive(_) =>
    case Deadline(_) =>
    case Withdraw(_) =>
    case Close =>
    case Terminate =>
    case _ => WriterReads(s, step);
  }

  lemma FramedStep(s: State, step: Step)
    requires Inv(s) && Framed(s) && Enabled(s, step)
    ensures Framed(Apply(s, step))
  {
    forall i | 0 <= i < |Apply(s, step).out|
      ensures FrameOk(Apply(s, step), i)
    {
      FramesStep(s, step, i);
    }
    forall i | 0 <= i < |Apply(s, step).out|
      ensures WrittenOnce(Apply(s, step), i)
    {
      WrittenOnceStep(s, step, i);
    }
    WriterStep(s, step);
    AlignedStep(s, step);
  }

  lemma WriterStep(s: State, step: Step)
    requires Inv(s) && Framed(s) && Enabled(s, step)
    ensures WriterOk(Apply(s, step))
  {
    if step.WriteHead? || step.WriteBody? {
      WriterWrites(s, step);
    } else if step.Lock? || step.Unlock? || step.Register? || step.Refuse? {
      WriterLocks(s, step);
    } else {
      WriterIdle(s, step);
    }
  }

  lemma AlignedInReceive(s: State, step: Step)
    requires Enabled(s, step) && Aligned(s) && InReceive(step)
    ensures Aligned(Apply(s, step))
  {
    match step
    case ReadHead(_) =>
    case FailHead =>
    case Take =>
    case ReadBody(_) =>
    case FailBody =>
    case Complete =>
  }

  lemma AlignedInSend(s: State, step: Step)
    requires Enabled(s, step) && Aligned(s) && InSend(step)
    ensures Aligned(Apply(s, step))
  {
    match step
    case Lock(_) =>
    case Register(_) =>
    case Refuse(_) =>
    case WriteHead(_, _) =>
    case WriteBody(_, _) =>
    case Unlock(_) =>
  }

  lemma AlignedStep(s: State, step: Step)
    requires Enabled(s, step) && Aligned(s)
    ensures Aligned(Apply(s, step))
  {
    if InReceive(step) {
      AlignedInReceive(s, step);
    } else if InSend(step) {
      AlignedInSend(s, step);
    }
  }

  /** The wire to the server is a sequence of whole frames, each the request of one registered call
      and no call's twice, and at most one unfinished frame; the reader takes items two by two. */
  lemma {:induction false} FramedHolds(steps: seq<Step>)
    requires Exec(steps).Some?
    ensures Framed(Exec(steps).value)
  {
    if steps != [] {
      InvHolds(steps[..|steps| - 1]);
      FramedHolds(steps[..|steps| - 1]);
      FramedStep(Exec(steps[..|steps| - 1]).value, steps[|steps| - 1]);
    }
  }

  // ---------------------------------------------------------------------------------
  // One answer per call

  /** The call has not been given anything yet. */
  ghost predicate Open(s: State, t: nat)
    requires t < |s.callers|
  {
    || s.callers[t].pc.Sending? || s.callers[t].pc.Registering?
    || (InPending(s, t) && !s.recv.Ended?)
    || (s.recv.Reading? && s.recv.call == Some(t))
  }

  /** An open call has neither result nor error, nor has one that its deadline withdrew, and no call
      ever has both. */
  ghost predicate OneAnswer(s: State, t: nat)
    requires t < |s.callers|
  {
    var c := s.callers[t];
    && (Open(s, t) || c.withdrawn ==> c.reply == None && c.err == NoError)
    && (c.reply.Some? ==> !c.err.Reported?)
  }

  lemma OneAnswerInSend(s: State, step: Step, t: nat)
    requires Inv(s) && Enabled(s, step) && InSend(step) && !step.Register? && t < |s.callers| && OneAnswer(s, t)
    ensures OneAnswer(Apply(s, step), t)
  {
    if Writes(step) {
      OneAnswerWrite(s, step, t);
    } else {
      assert CallerOk(s, t);
    }
  }

  lemma OneAnswerWrite(s: State, step: Step, t: nat)
    requires Inv(s) && Enabled(s, step) && Writes(step) && t < |s.callers| && OneAnswer(s, t)
    ensures OneAnswer(Apply(s, step), t)
  {
    assert CallerOk(s, t);
  }

  lemma OneAnswerRegister(s: State, u: nat, t: nat)
    requires Inv(s) && Enabled(s, Register(u)) && t < |s.callers| && OneAnswer(s, t)
    ensures OneAnswer(Apply(s, Register(u)), t)
  {
    assert CallerOk(s, t);
  }

  lemma OneAnswerInReceive(s: State, step: Step, t: nat)
    requires Inv(s) && Enabled(s, step) && InReceive(step) && t < |s.callers| && OneAnswer(s, t)
    ensures OneAnswer(Apply(s, step), t)
  {
    match step
    case Take => OneAnswerInTake(s, step, t);
    case ReadBody(_) => OneAnswerGiven(s, step, t);
    case FailBody => OneAnswerGiven(s, step, t);
    case Complete => assert CallerOk(s, t);
    case ReadHead(_) =>
    case FailHead =>
  }

  lemma OneAnswerGiven(s: State, step: Step, t: nat)
    requires Inv(s) && Enabled(s, step) && (step.ReadBody? || step.FailBody?)
    requires t < |s.callers| && OneAnswer(s, t)
    ensures OneAnswer(Apply(s, step), t)
  {
    assert CallerOk(s, t);
    match step
    case ReadBody(_) =>
    case FailBody =>
  }

  lemma OneAnswerInTake(s: State, step: Step, t: nat)
    requires Inv(s) && Enabled(s, step) && step.Take? && t < |s.callers| && OneAnswer(s, t)
    ensures OneAnswer(Apply(s, step), t)
  {
    assert CallerOk(s, t);
    if s.recv.h.seqNo in s.pending {
      assert PendingOk(s, s.recv.h.seqNo) && IssuedOk(s, s.recv.h.seqNo);
    }
  }

  lemma OneAnswerElsewhere(s: State, step: Step, t: nat)
    requires Inv(s) && Enabled(s, step) && !InSend(step) && !InReceive(step) && t < |s.callers| && OneAnswer(s, t)
    ensures OneAnswer(Apply(s, step), t)
  {
    match step
    case Go(_) =>
    case Receive(_) => assert CallerOk(s, t);
    case Deadline(_) => assert CallerOk(s, t);
    case Withdraw(u) => OneAnswerWithdrawn(s, u, t);
    case Close =>
    case Terminate => OneAnswerTerminated(s, t);
  }

  lemma OneAnswerWithdrawn(s: State, u: nat, t: nat)
    requires Inv(s) && Enabled(s, Withdraw(u)) && t < |s.callers| && OneAnswer(s, t)
    ensures OneAnswer(Apply(s, Withdraw(u)), t)
  {
    assert CallerOk(s, t) && CallerOk(s, u);
  }

  lemma OneAnswerTerminated(s: State, t: nat)
    requires Inv(s) && Enabled(s, Terminate) && t < |s.callers| && OneAnswer(s, t)
    ensures OneAnswer(Apply(s, Terminate), t)
  {
    assert CallerOk(s, t);
  }

  lemma OneAnswerStep(s: State, step: Step, t: nat)
    requires Inv(s) && Enabled(s, step) && t < |s.callers| && OneAnswer(s, t)
    ensures t < |Apply(s, step).callers| && OneAnswer(Apply(s, step), t)
  {
    RequestKept(s, step, t);
    if step.Register? {
      OneAnswerRegister(s, step.t, t);
    } else if InSend(step) {
      OneAnswerInSend(s, step, t);
    } else if InReceive(step) {
      OneAnswerInReceive(s, step, t);
    } else {
      OneAnswerElsewhere(s, step, t);
    }
  }

  lemma {:induction false} OneAnswerHolds(steps: seq<Step>, t: nat)
    requires Exec(steps).Some? && t < |Exec(steps).value.callers|
    ensures OneAnswer(Exec(steps).value, t)
  {
    if steps != [] {
      var s, step := Exec(steps[..|steps| - 1]).value, steps[|steps| - 1];
      InvHolds(steps[..|steps| - 1]);
      if t < |s.callers| {
        OneAnswerHolds(steps[..|steps| - 1], t);
        OneAnswerStep(s, step, t);
      } else {
        NewCallerIsOpen(s, step, t);
      }
    }
  }

  lemma NewCallerIsOpen(s: State, step: Step, t: nat)
    requires Enabled(s, step) && |s.callers| <= t < |Apply(s, step).callers|
    ensures OneAnswer(Apply(s, step), t)
  {
    OnlyGoAdds(s, step);
  }

  lemma OnlyGoAdds(s: State, step: Step)
    requires Enabled(s, step)
    ensures step.Go? || |Apply(s, step).callers| == |s.callers|
  {
    match step
    case Go(_) =>
    case Lock(_) =>
    case Register(_) =>
    case Refuse(_) =>
    case WriteHead(_, _) =>
    case WriteBody(_, _) =>
    case _ =>
  }

  /** What arrives for an abandoned call is dropped: once its deadline has withdrawn it, a call has
      no result, no error, and is not completed. */
  lemma AbandonedGetsNothing(steps: seq<Step>, t: nat)
    requires Exec(steps).Some? && t < |Exec(steps).value.callers| && Exec(steps).value.callers[t].withdrawn
    ensures var c := Exec(steps).value.callers[t]; c.reply == None && c.err == NoError && c.done == 0
  {
    OneAnswerHolds(steps, t);
    CompletedAtMostOnce(steps, t);
  }

  // ---------------------------------------------------------------------------------
  // Numbers belong to their callers for good

  /** In `s'` number `k` still belongs to the caller it belonged to in `s`, with the same request. */
  ghost predicate StillOwned(s: State, s': State, k: nat) {
    && k in s.issued && k in s'.issued && s'.issued[k] == s.issued[k] < |s.callers| <= |s'.callers|
    && s'.callers[s.issued[k]].req == s.callers[s.issued[k]].req
    && s'.callers[s.issued[k]].seqNo == k
  }

  lemma StillOwnedStep(s: State, s': State, step: Step, k: nat)
    requires StillOwned(s, s', k) && Inv(s') && Enabled(s', step)
    ensures StillOwned(s, Apply(s', step), k)
  {
    IssuedKept(s', step, k);
    InvStep(s', step);
    assert IssuedOk(Apply(s', step), k);
  }

  /** A number belongs for good to the caller it was issued to, with the request it was issued for. */
  lemma {:induction false} IssuedForGood(before: seq<Step>, after: seq<Step>, k: nat)
    requires Exec(before + after).Some? && Exec(before).Some? && k in Exec(before).value.issued
    ensures StillOwned(Exec(before).value, Exec(before + after).value, k)
  {
    if after == [] {
      assert before + after == before;
      InvHolds(before);
      assert IssuedOk(Exec(before).value, k);
    } else {
      var rest, step := after[..|after| - 1], after[|after| - 1];
      assert (before + after)[..|before + after| - 1] == before + rest;
      IssuedForGood(before, rest, k);
      InvHolds(before + rest);
      StillOwnedStep(Exec(before).value, Exec(before + rest).value, step, k);
    }
  }
}
