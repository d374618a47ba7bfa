/** No caller of the client waits for ever: once the connection ends, every call returns. */
module RpcClientProgress {
  import opened Basics
  import opened RpcClient

  // ---------------------------------------------------------------------------------
  // A falling measure

  /** An upper bound on the steps a caller still has to make. */
  function CallerLeft(pc: Pc): nat {
    match pc
    case Sending => 7
    case Registering => 6
    case Refused => 5
    case WritingHead => 5
    case WritingBody => 4
    case Unlocking => 3
    case Waiting => 2
    case Withdrawing => 1
    case Returned(_) => 0
  }

  /** The same for the receive loop when it reads no further header. */
  function ReceiverLeft(recv: Receiver): nat {
    match recv
    case Looking(_) => 5
    case Reading(_, _) => 4
    case Completing(_, _, _) => 3
    case AtHead => 2
    case Terminating => 1
    case Ended => 0
  }

  function CallersLeft(callers: seq<Caller>): nat {
    if callers == [] then 0
    else CallersLeft(callers[..|callers| - 1]) + CallerLeft(callers[|callers| - 1].pc)
  }

  function Work(s: State): nat {
    ReceiverLeft(s.recv) + CallersLeft(s.callers)
  }

  lemma {:induction false} CallersUpdated(callers: seq<Caller>, t: nat, c: Caller)
    requires t < |callers|
    ensures CallersLeft(callers[t := c]) == CallersLeft(callers) - CallerLeft(callers[t].pc) + CallerLeft(c.pc)
  {
    var n := |callers| - 1;
    if t < n {
      assert callers[t := c][..n] == callers[..n][t := c];
      CallersUpdated(callers[..n], t, c);
    } else {
      assert callers[t := c][..n] == callers[..n];
    }
  }

  lemma {:induction false} CallersAlike(callers: seq<Caller>, callers': seq<Caller>)
    requires |callers'| == |callers| && forall t :: 0 <= t < |callers| ==> callers'[t].pc == callers[t].pc
    ensures CallersLeft(callers') == CallersLeft(callers)
  {
    if callers != [] {
      CallersAlike(callers[..|callers| - 1], callers'[..|callers| - 1]);
    }
  }

  lemma OneCallerForward(s: State, s': State, t: nat)
    requires s'.recv == s.recv && t < |s.callers| == |s'.callers| && s'.callers == s.callers[t := s'.callers[t]]
    requires CallerLeft(s'.callers[t].pc) < CallerLeft(s.callers[t].pc)
    ensures Work(s') < Work(s)
  {
    CallersUpdated(s.callers, t, s'.callers[t]);
  }

  /** Steps that come from outside: a new call, a new response, `Close`. */
  predicate FromOutside(step: Step) {
    step.Go? || step.ReadHead? || step.Close?
  }

  lemma SendForward(s: State, step: Step)
    requires Enabled(s, step) && InSend(step)
    ensures Work(Apply(s, step)) < Work(s)
  {
    match step
    case Lock(t) => OneCallerForward(s, Apply(s, step), t);
    case Register(t) => OneCallerForward(s, Apply(s, step), t);
    case Refuse(t) => OneCallerForward(s, Apply(s, step), t);
    case WriteHead(t, _) => OneCallerForward(s, Apply(s, step), t);
    case WriteBody(t, _) => OneCallerForward(s, Apply(s, step), t);
    case Unlock(t) => OneCallerForward(s, Apply(s, step), t);
  }

  lemma WaitForward(s: State, step: Step)
    requires Enabled(s, step) && (step.Receive? || step.Deadline? || step.Withdraw?)
    ensures Work(Apply(s, step)) < Work(s)
  {
    match step
    case Receive(t) => OneCallerForward(s, Apply(s, step), t);
    case Deadline(t) => OneCallerForward(s, Apply(s, step), t);
    case Withdraw(t) => OneCallerForward(s, Apply(s, step), t);
  }

  /** The receive loop gives the call it has taken something, or completes it. */
  lemma GivenForward(s: State, step: Step)
    requires Enabled(s, step) && (step.ReadBody? || step.FailBody?)
    ensures Work(Apply(s, step)) < Work(s)
  {
    CallersAlike(s.callers, Apply(s, step).callers);
  }

  lemma CompletedForward(s: State, step: Step)
    requires Enabled(s, step) && (step.Complete? || step.Terminate?)
    ensures Work(Apply(s, step)) < Work(s)
  {
    CallersAlike(s.callers, Apply(s, step).callers);
  }

  lemma ReceiverForward(s: State, step: Step)
    requires Enabled(s, step) && (InReceive(step) || step.Terminate?) && !step.ReadHead?
    ensures Work(Apply(s, step)) < Work(s)
  {
    match step
    case FailHead =>
    case Take =>
    case ReadBody(_) => GivenForward(s, step);
    case FailBody => GivenForward(s, step);
    case Complete => CompletedForward(s, step);
    case Terminate => CompletedForward(s, step);
  }

  lemma WorkStep(s: State, step: Step)
    requires Enabled(s, step) && !FromOutside(step)
    ensures Work(Apply(s, step)) < Work(s)
  {
    if InSend(step) {
      SendForward(s, step);
    } else if InReceive(step) || step.Terminate? {
      ReceiverForward(s, step);
    } else {
      WaitForward(s, step);
    }
  }

  lemma {:induction false} BoundedWork(before: seq<Step>, after: seq<Step>)
    requires Exec(before + after).Some?
    requires forall i :: 0 <= i < |after| ==> !FromOutside(after[i])
    ensures Exec(before).Some?
    ensures Work(Exec(before + after).value) + |after| <= Work(Exec(before).value)
  {
    if after == [] {
      assert before + after == before;
    } else {
      var rest, step := after[..|after| - 1], after[|after| - 1];
      assert (before + after)[..|before + after| - 1] == before + rest;
      BoundedWork(before, rest);
      WorkStep(Exec(before + rest).value, step);
    }
  }

  // ---------------------------------------------------------------------------------
  // The end

  /** Nothing is left to do but what comes from outside or gives up at a deadline. */
  ghost predicate AtRest(s: State) {
    forall step: Step :: !FromOutside(step) && !step.Deadline? ==> !Enabled(s, step)
  }

  /** The caller that holds `sending` can go on. */
  lemma HolderCanMove(s: State) returns (step: Step)
    requires Inv(s) && s.lock.Some?
    ensures InSend(step) && Enabled(s, step)
  {
    var t := s.lock.value;
    match s.callers[t].pc
    case Registering => step := Register(t);
    case Refused => step := Refuse(t);
    case WritingHead => step := WriteHead(t, false);
    case WritingBody => step := WriteBody(t, false);
    case Unlocking => step := Unlock(t);
  }

  /** So can the receive loop, once nobody holds `sending`: it does not wait for the server for ever,
      because the connection may end. */
  lemma ReceiverCanMove(s: State) returns (step: Step)
    requires Inv(s) && s.lock == None && !s.recv.Ended?
    ensures !FromOutside(step) && !step.Deadline? && Enabled(s, step)
  {
    match s.recv
    case AtHead => step := FailHead;
    case Looking(_) => step := Take;
    case Reading(h, _) =>
      assert h.seqNo in s.issued ==> IssuedOk(s, h.seqNo);
      step := FailBody;
    case Completing(h, _, _) =>
      assert IssuedOk(s, h.seqNo);
      step := Complete;
    case Terminating => step := Terminate;
  }

  lemma CallerCanMove(s: State, t: nat) returns (step: Step)
    requires Inv(s) && s.lock == None && s.recv.Ended? && t < |s.callers| && !s.callers[t].pc.Returned?
    ensures !FromOutside(step) && !step.Deadline? && Enabled(s, step)
  {
    assert CallerOk(s, t);
    match s.callers[t].pc
    case Sending => step := Lock(t);
    case Waiting => step := Receive(t);
    case Withdrawing => step := Withdraw(t);
  }

  /** While a call has not returned, some goroutine of the client can go on without its deadline. */
  lemma CallsProgress(steps: seq<Step>, t: nat) returns (step: Step)
    requires Exec(steps).Some? && t < |Exec(steps).value.callers| && !Exec(steps).value.callers[t].pc.Returned?
    ensures !FromOutside(step) && !step.Deadline? && Enabled(Exec(steps).value, step)
  {
    InvHolds(steps);
    step := SomeStep(Exec(steps).value, t);
  }

  lemma SomeStep(s: State, t: nat) returns (step: Step)
    requires Inv(s) && (s.recv.Ended? ==> t < |s.callers| && !s.callers[t].pc.Returned?)
    ensures !FromOutside(step) && !step.Deadline? && Enabled(s, step)
  {
    if s.lock.Some? {
      step := HolderCanMove(s);
    } else if !s.recv.Ended? {
      step := ReceiverCanMove(s);
    } else {
      step := CallerCanMove(s, t);
    }
  }

  /** A schedule without new calls and responses that goes on as long as it can ends, with the receive
      loop at its end and every call returned, whether or not deadlines fire on the way. */
  lemma EveryCallReturns(before: seq<Step>, after: seq<Step>)
    requires Exec(before + after).Some? && AtRest(Exec(before + after).value)
    requires forall i :: 0 <= i < |after| ==> !FromOutside(after[i])
    ensures Exec(before).Some? && |after| <= Work(Exec(before).value)
    ensures var s := Exec(before + after).value;
            s.recv.Ended? && forall t :: 0 <= t < |s.callers| ==> s.callers[t].pc.Returned?
  {
    BoundedWork(before, after);
    InvHolds(before + after);
    var s := Exec(before + after).value;
    if !s.recv.Ended? {
      var step := SomeStep(s, 0);
    }
    forall t | 0 <= t < |s.callers|
      ensures s.callers[t].pc.Returned?
    {
      if !s.callers[t].pc.Returned? {
        var step := SomeStep(s, t);
      }
    }
  }
}
