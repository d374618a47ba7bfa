/** How the client's calls end, and how they are numbered. */
module RpcClientEnds {
  import opened Basics
  import opened RpcClient

  /** What the receive loop has given the call it is about to complete: the error of the header if it
      carries one, whatever the body, and otherwise the result, or an error when it cannot be read. */
  ghost predicate GivenOk(s: State) {
    s.recv.Completing? && s.recv.target < |s.callers| ==>
      var c := s.callers[s.recv.target];
      if s.recv.h.err != "" then c.err == Reported(s.recv.h.err) && c.reply == None
      else if s.recv.ok then c.err == NoError && c.reply.Some?
      else c.err == BadBody && c.reply == None
  }

  /** A refused call ends with `ErrShutdown`, and no other call does; a call that is completed has a
      result or an error; and a call that returns before its deadline has been completed. */
  ghost predicate EndOk(s: State, t: nat)
    requires t < |s.callers|
  {
    Ended(s.callers[t], s.recv.Ended?)
  }

  predicate Ended(c: Caller, over: bool) {
    && (c.pc.Refused? || (c.seqNo == 0 && c.done > 0) ==> c.err == ErrShutdown)
    && (c.seqNo > 0 ==> c.err != ErrShutdown)
    && (c.err == Broken ==> over)
    && (c.done > 0 ==> c.reply.Some? || c.err != NoError)
    && (c.pc == Returned(false) ==> c.done > 0)
  }

  ghost predicate EndsOk(s: State) {
    GivenOk(s) && forall t :: 0 <= t < |s.callers| ==> EndOk(s, t)
  }

  /** What the steps of `send` and of waiting do to caller `t`. */
  lemma EndAtRegistration(s: State, u: nat, t: nat)
    requires Enabled(s, Register(u)) && t < |s.callers|
    requires CallerOk(s, t) && EndOk(s, t) && OneAnswer(s, t)
    ensures EndOk(Apply(s, Register(u)), t)
  {
  }

  lemma EndAtHead(s: State, u: nat, ok: bool, t: nat)
    requires Enabled(s, WriteHead(u, ok)) && t < |s.callers| && EndOk(s, t)
    ensures EndOk(Apply(s, WriteHead(u, ok)), t)
  {
    assert t != u ==> Apply(s, WriteHead(u, ok)).callers[t] == s.callers[t];
  }

  lemma EndAtBody(s: State, u: nat, ok: bool, t: nat)
    requires Enabled(s, WriteBody(u, ok)) && t < |s.callers| && EndOk(s, t)
    ensures EndOk(Apply(s, WriteBody(u, ok)), t)
  {
    assert t != u ==> Apply(s, WriteBody(u, ok)).callers[t] == s.callers[t];
  }

  lemma EndInSend(s: State, step: Step, t: nat)
    requires Enabled(s, step) && InSend(step) && t < |s.callers|
    requires CallerOk(s, t) && EndOk(s, t) && OneAnswer(s, t)
    ensures t < |Apply(s, step).callers| && EndOk(Apply(s, step), t)
  {
    match step
    case Lock(_) =>
    case Register(u) => EndAtRegistration(s, u, t);
    case Refuse(_) =>
    case WriteHead(u, ok) => EndAtHead(s, u, ok, t);
    case WriteBody(u, ok) => EndAtBody(s, u, ok, t);
    case Unlock(_) =>
  }

  /** The call that the receive loop is reading for has not been completed. */
  lemma TakenIsOpen(s: State, t: nat)
    requires t < |s.callers| && CallerOk(s, t) && s.recv.Reading? && s.recv.call == Some(t)
    ensures s.callers[t].done == 0 && s.callers[t].seqNo > 0 && !Unregistered(s.callers[t].pc)
  {
  }

  lemma EndWithBody(s: State, b: Bytes, t: nat)
    requires Enabled(s, ReadBody(b)) && t < |s.callers| && CallerOk(s, t) && EndOk(s, t)
    ensures t < |Apply(s, ReadBody(b)).callers| && EndOk(Apply(s, ReadBody(b)), t)
  {
    if s.recv.call == Some(t) {
      TakenIsOpen(s, t);
    } else {
      assert Apply(s, ReadBody(b)).callers[t] == s.callers[t];
    }
  }

  lemma EndWithoutBody(s: State, t: nat)
    requires Enabled(s, FailBody) && t < |s.callers| && CallerOk(s, t) && EndOk(s, t)
    ensures t < |Apply(s, FailBody).callers| && EndOk(Apply(s, FailBody), t)
  {
    if s.recv.call == Some(t) {
      TakenIsOpen(s, t);
    } else {
      assert Apply(s, FailBody).callers[t] == s.callers[t];
    }
  }

  lemma EndWhenCompleted(s: State, t: nat)
    requires Enabled(s, Complete) && t < |s.callers| && GivenOk(s) && CallerOk(s, t) && EndOk(s, t)
    ensures t < |Apply(s, Complete).callers| && EndOk(Apply(s, Complete), t)
  {
  }

  lemma EndInReceive(s: State, step: Step, t: nat)
    requires Enabled(s, step) && InReceive(step) && t < |s.callers| && GivenOk(s)
    requires CallerOk(s, t) && EndOk(s, t) && OneAnswer(s, t)
    ensures t < |Apply(s, step).callers| && EndOk(Apply(s, step), t)
  {
    match step
    case ReadHead(_) =>
    case FailHead =>
    case Take =>
    case ReadBody(b) => EndWithBody(s, b, t);
    case FailBody => EndWithoutBody(s, t);
    case Complete => EndWhenCompleted(s, t);
  }

  lemma EndElsewhere(s: State, step: Step, t: nat)
    requires Enabled(s, step) && !InSend(step) && !InReceive(step) && t < |s.callers|
    requires CallerOk(s, t) && EndOk(s, t) && 0 !in s.pending
    ensures t < |Apply(s, step).callers| && EndOk(Apply(s, step), t)
  {
    match step
    case Go(_) =>
    case Receive(_) =>
    case Deadline(_) =>
    case Withdraw(_) =>
    case Close =>
    case Terminate =>
  }

  /** The call about to be completed is registered. */
  ghost predicate TargetOk(s: State) {
    s.recv.Completing? ==> s.recv.target < |s.callers| && !Unregistered(s.callers[s.recv.target].pc)
  }

  lemma GivenInReceive(s: State, step: Step)
    requires Enabled(s, step) && InReceive(step) && GivenOk(s)
    requires forall t :: 0 <= t < |s.callers| ==> OneAnswer(s, t)
    ensures GivenOk(Apply(s, step))
  {
    match step
    case ReadHead(_) =>
    case FailHead =>
    case Take =>
    case ReadBody(_) => assert s.recv.call.Some? ==> OneAnswer(s, s.recv.call.value);
    case FailBody => assert s.recv.call.Some? ==> OneAnswer(s, s.recv.call.value);
    case Complete =>
  }

  lemma GivenAtRegistration(s: State, t: nat)
    requires Enabled(s, Register(t)) && GivenOk(s) && TargetOk(s)
    ensures GivenOk(Apply(s, Register(t)))
  {
  }

  lemma GivenInSend(s: State, step: Step)
    requires Enabled(s, step) && InSend(step) && GivenOk(s) && TargetOk(s)
    ensures GivenOk(Apply(s, step))
  {
    match step
    case Lock(_) =>
    case Register(t) => GivenAtRegistration(s, t);
    case Refuse(_) =>
    case WriteHead(_, _) =>
    case WriteBody(_, _) =>
    case Unlock(_) =>
  }

  lemma GivenElsewhere(s: State, step: Step)
    requires Enabled(s, step) && !InSend(step) && !InReceive(step) && GivenOk(s) && TargetOk(s)
    ensures GivenOk(Apply(s, step))
  {
    match step
    case Go(_) =>
    case Receive(_) =>
    case Deadline(_) =>
    case Withdraw(_) =>
    case Close =>
    case Terminate =>
  }

  lemma EndStep(s: State, step: Step, t: nat)
    requires Inv(s) && EndsOk(s) && Enabled(s, step) && t < |Apply(s, step).callers|
    requires t < |s.callers| ==> OneAnswer(s, t)
    ensures EndOk(Apply(s, step), t)
  {
    if t >= |s.callers| {
      NewCallerHasNotEnded(s, step, t);
    } else {
      assert CallerOk(s, t) && EndOk(s, t);
      assert 0 in s.pending ==> PendingOk(s, 0) && IssuedOk(s, 0);
      if InSend(step) {
        EndInSend(s, step, t);
      } else if InReceive(step) {
        EndInReceive(s, step, t);
      } else {
        EndElsewhere(s, step, t);
      }
    }
  }

  lemma EndsStep(s: State, step: Step)
    requires Inv(s) && EndsOk(s) && Enabled(s, step)
    requires forall t :: 0 <= t < |s.callers| ==> OneAnswer(s, t)
    ensures EndsOk(Apply(s, step))
  {
    forall t | 0 <= t < |Apply(s, step).callers| ensures EndOk(Apply(s, step), t) {
      EndStep(s, step, t);
    }
    if s.recv.Completing? {
      assert IssuedOk(s, s.recv.h.seqNo) && CallerOk(s, s.recv.target);
    }
    if InSend(step) {
      GivenInSend(s, step);
    } else if InReceive(step) {
      GivenInReceive(s, step);
    } else {
      GivenElsewhere(s, step);
    }
  }

  lemma NewCallerHasNotEnded(s: State, step: Step, t: nat)
    requires Enabled(s, step) && |s.callers| <= t < |Apply(s, step).callers|
    ensures EndOk(Apply(s, step), t)
  {
    OnlyGoAdds(s, step);
  }

  lemma {:induction false} EndsHold(steps: seq<Step>)
    requires Exec(steps).Some?
    ensures EndsOk(Exec(steps).value)
  {
    if steps != [] {
      var before := steps[..|steps| - 1];
      InvHolds(before);
      EndsHold(before);
      forall t | 0 <= t < |Exec(before).value.callers| ensures OneAnswer(Exec(before).value, t) {
        OneAnswerHolds(before, t);
      }
      EndsStep(Exec(before).value, steps[|steps| - 1]);
    }
  }

  /** `Call` reports what became of the call: unless its deadline fired, it returns with a result, or
      with an error, which is `ErrShutdown` exactly when the call was never registered. */
  lemma ReturnsWithAnswer(steps: seq<Step>, t: nat)
    requires Exec(steps).Some? && t < |Exec(steps).value.callers|
    requires Exec(steps).value.callers[t].pc == Returned(false)
    ensures var c := Exec(steps).value.callers[t];
            && (c.reply.Some? || c.err != NoError)
            && (c.err == ErrShutdown <==> c.seqNo == 0)
  {
    EndsHold(steps);
    assert EndOk(Exec(steps).value, t);
  }

  /** Once the connection has ended, every registered call has a result, or the error of its own
      response, or the error of the connection, unless its deadline withdrew it. */
  lemma TerminatedWithAnswer(steps: seq<Step>, t: nat)
    requires Exec(steps).Some? && Exec(steps).value.recv.Ended?
    requires t < |Exec(steps).value.callers| && Exec(steps).value.callers[t].seqNo > 0
    ensures var c := Exec(steps).value.callers[t];
            c.withdrawn || c.reply.Some? || c.err.Reported? || c.err == BadBody || c.err == Broken
  {
    InvHolds(steps);
    EndsHold(steps);
    assert CallerOk(Exec(steps).value, t) && EndOk(Exec(steps).value, t);
  }

  /** A response whose header carries an error ends its call with that error, readable body or not;
      one without ends it with its body. */
  lemma HeaderErrorWins(steps: seq<Step>)
    requires Exec(steps).Some? && Exec(steps).value.recv.Completing?
    ensures var s := Exec(steps).value;
            && s.recv.target < |s.callers| && s.callers[s.recv.target].seqNo == s.recv.h.seqNo
            && var c := s.callers[s.recv.target];
            && (s.recv.h.err != "" ==> c.err == Reported(s.recv.h.err))
            && (s.recv.h.err == "" && s.recv.ok ==> c.reply.Some? && c.err == NoError)
            && (s.recv.h.err == "" && !s.recv.ok ==> c.reply == None && c.err == BadBody)
  {
    InvHolds(steps);
    EndsHold(steps);
    assert IssuedOk(Exec(steps).value, Exec(steps).value.recv.h.seqNo);
  }

  // ---------------------------------------------------------------------------------
  // Registration

  predicate Down(s: State) {
    s.closing || s.shutdown
  }

  lemma DownStays(s: State, step: Step)
    requires Enabled(s, step) && Down(s)
    ensures Down(Apply(s, step)) && Apply(s, step).issued == s.issued
    ensures s.dead ==> Apply(s, step).dead && Apply(s, step).out == s.out
  {
    if InReceive(step) {
      DownStaysInReceive(s, step);
    } else {
      match step
      case Go(_) =>
      case Lock(_) =>
      case Register(_) =>
      case Refuse(_) =>
      case WriteHead(_, _) =>
      case WriteBody(_, _) =>
      case _ =>
    }
  }

  lemma DownStaysInReceive(s: State, step: Step)
    requires Enabled(s, step) && InReceive(step)
    ensures Apply(s, step).closing == s.closing && Apply(s, step).shutdown == s.shutdown
    ensures Apply(s, step).issued == s.issued
    ensures Apply(s, step).dead == s.dead && Apply(s, step).out == s.out
  {
    match step
    case ReadHead(_) =>
    case FailHead =>
    case Take =>
    case ReadBody(_) =>
    case FailBody =>
    case Complete =>
  }

  /** After `Close` no number is issued any more: every call that comes to register is refused. When it
      closes a connection that was still up, nothing is written any more either. */
  lemma {:induction false} ClosedForGood(before: seq<Step>, after: seq<Step>)
    requires Exec(before + [Close] + after).Some?
    ensures Exec(before).Some? && Down(Exec(before + [Close] + after).value)
    ensures Exec(before + [Close] + after).value.issued == Exec(before).value.issued
    ensures !Exec(before).value.shutdown ==>
              Exec(before + [Close] + after).value.dead &&
              Exec(before + [Close] + after).value.out == Exec(before).value.out
  {
    var all := before + [Close] + after;
    if after == [] {
      assert all[..|all| - 1] == before && all[|all| - 1] == Close;
    } else {
      var rest := after[..|after| - 1];
      assert all[..|all| - 1] == before + [Close] + rest;
      ClosedForGood(before, rest);
      DownStays(Exec(before + [Close] + rest).value, after[|after| - 1]);
    }
  }

  /** Numbers are issued one after another from 1 on, and none is left out. */
  lemma {:induction false} NumbersAreConsecutive(steps: seq<Step>, k: nat)
    requires Exec(steps).Some?
    ensures k in Exec(steps).value.issued <==> 1 <= k <= |Exec(steps).value.issued|
    ensures Exec(steps).value.next == |Exec(steps).value.issued| + 1
  {
    if steps != [] {
      var before, step := steps[..|steps| - 1], steps[|steps| - 1];
      NumbersAreConsecutive(before, k);
      NumbersAreConsecutive(before, Exec(before).value.next);
      OneNumberMore(Exec(before).value, step);
    }
  }

  lemma OneNumberMore(s: State, step: Step)
    requires Enabled(s, step)
    ensures var s' := Apply(s, step);
            || (s'.issued == s.issued && s'.next == s.next)
            || (step.Register? && s'.issued == s.issued[s.next := step.t] && s'.next == s.next + 1)
  {
    if InReceive(step) {
      OneNumberInReceive(s, step);
    } else {
      match step
      case Go(_) =>
      case Lock(_) =>
      case Register(_) =>
      case Refuse(_) =>
      case WriteHead(_, _) =>
      case WriteBody(_, _) =>
      case _ =>
    }
  }

  lemma OneNumberInReceive(s: State, step: Step)
    requires Enabled(s, step) && InReceive(step)
    ensures Apply(s, step).issued == s.issued && Apply(s, step).next == s.next
  {
    match step
    case ReadHead(_) =>
    case FailHead =>
    case Take =>
    case ReadBody(_) =>
    case FailBody =>
    case Complete =>
  }

  // ---------------------------------------------------------------------------------
  // What brings the client down

  lemma DownStep(s: State, step: Step)
    requires Enabled(s, step) && (s.shutdown <==> s.recv.Ended?)
    ensures Down(Apply(s, step)) <==> Down(s) || step.Close? || step.Terminate?
    ensures Apply(s, step).recv.Ended? <==> s.recv.Ended? || step.Terminate?
  {
    if InReceive(step) {
      DownStaysInReceive(s, step);
    } else {
      match step
      case Go(_) =>
      case Lock(_) =>
      case Register(_) =>
      case Refuse(_) =>
      case WriteHead(_, _) =>
      case WriteBody(_, _) =>
      case _ =>
    }
  }

  /** A client is down exactly when it has been closed or its receive loop has ended. */
  lemma {:induction false} DownIff(steps: seq<Step>)
    requires Exec(steps).Some?
    ensures Down(Exec(steps).value) <==> Exec(steps).value.recv.Ended? || Close in steps
  {
    if steps != [] {
      var before, step := steps[..|steps| - 1], steps[|steps| - 1];
      DownIff(before);
      InvHolds(before);
      DownStep(Exec(before).value, step);
      assert Close in steps <==> Close in before || step == Close;
    }
  }

  /** A call is refused only by a client that has been closed or whose connection has ended. */
  lemma {:induction false} RefusedOnlyWhenDown(steps: seq<Step>, t: nat)
    requires Exec(steps).Some? && t < |Exec(steps).value.callers|
    requires Exec(steps).value.callers[t].err == ErrShutdown
    ensures Exec(steps).value.recv.Ended? || Close in steps
  {
    var before, step := steps[..|steps| - 1], steps[|steps| - 1];
    var s := Exec(before).value;
    DownIff(steps);
    InvHolds(before);
    DownStep(s, step);
    if t < |s.callers| && s.callers[t].err == ErrShutdown {
      RefusedOnlyWhenDown(before, t);
      DownIff(before);
    } else {
      RefusedNow(s, step, t);
    }
  }

  lemma RefusedNow(s: State, step: Step, t: nat)
    requires Enabled(s, step) && t < |Apply(s, step).callers|
    requires Apply(s, step).callers[t].err == ErrShutdown
    requires t < |s.callers| ==> s.callers[t].err != ErrShutdown
    ensures Down(s)
  {
    if InReceive(step) {
      OnlyGoAdds(s, step);
      NotRefusedInReceive(s, step, t);
    } else {
      match step
      case Go(_) =>
      case Lock(_) =>
      case Register(_) =>
      case Refuse(_) =>
      case WriteHead(_, _) =>
      case WriteBody(_, _) =>
      case _ =>
    }
  }

  lemma NotRefusedByBody(s: State, b: Bytes, t: nat)
    requires Enabled(s, ReadBody(b)) && t < |s.callers| && s.callers[t].err != ErrShutdown
    ensures t < |Apply(s, ReadBody(b)).callers| && Apply(s, ReadBody(b)).callers[t].err != ErrShutdown
  {
    if s.recv.call == Some(t) {
      assert Apply(s, ReadBody(b)).callers[t].err == s.callers[t].err || s.recv.h.err != "";
    }
  }

  lemma NotRefusedByFailure(s: State, t: nat)
    requires Enabled(s, FailBody) && t < |s.callers| && s.callers[t].err != ErrShutdown
    ensures t < |Apply(s, FailBody).callers| && Apply(s, FailBody).callers[t].err != ErrShutdown
  {
  }

  lemma NotRefusedInReceive(s: State, step: Step, t: nat)
    requires Enabled(s, step) && InReceive(step) && t < |s.callers| && s.callers[t].err != ErrShutdown
    ensures t < |Apply(s, step).callers| && Apply(s, step).callers[t].err != ErrShutdown
  {
    match step
    case ReadHead(_) =>
    case FailHead =>
    case Take =>
    case ReadBody(b) => NotRefusedByBody(s, b, t);
    case FailBody => NotRefusedByFailure(s, t);
    case Complete =>
  }

  /** The receive loop has met an error of its own, or has ended. */
  predicate LoopFailed(r: Receiver) {
    r.Terminating? || r.Ended? || (r.Completing? && !r.ok)
  }

  lemma LoopStep(s: State, step: Step)
    requires Enabled(s, step)
    ensures LoopFailed(Apply(s, step).recv) <==> LoopFailed(s.recv) || step.FailHead? || step.FailBody?
  {
    match step
    case Go(_) =>
    case Lock(_) =>
    case Register(_) =>
    case Refuse(_) =>
    case WriteHead(_, _) =>
    case WriteBody(_, _) =>
    case _ =>
  }

  /** The receive loop ends exactly when something cannot be read: neither an error in a response nor
      a response that nobody waits for ends it. */
  lemma {:induction false} LoopFailsIff(steps: seq<Step>)
    requires Exec(steps).Some?
    ensures LoopFailed(Exec(steps).value.recv) <==> FailHead in steps || FailBody in steps
  {
    if steps != [] {
      var before, step := steps[..|steps| - 1], steps[|steps| - 1];
      LoopFailsIff(before);
      LoopStep(Exec(before).value, step);
      assert forall x :: x in steps <==> x in before || x == step;
    }
  }
}
