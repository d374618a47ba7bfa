/** What the client sends, and when it stops sending and waiting. */
module RpcClientSends {
  import opened Basics
  import opened RpcWire
  import opened RpcClient

  function HeadOf(req: Request, seqNo: nat): Item {
    Head(Header(req.serviceMethod, seqNo, ""))
  }

  /** The request is on the wire, header and body side by side. */
  ghost predicate OnWire(out: seq<Item>, req: Request, seqNo: nat) {
    exists i: nat :: FrameAt(out, i, req, seqNo)
  }

  predicate FrameAt(out: seq<Item>, i: nat, req: Request, seqNo: nat) {
    i + 1 < |out| && out[i] == HeadOf(req, seqNo) && out[i + 1] == Body(req.args)
  }

  /** A caller about to write its body has just written its header; one that is past writing has its
      request on the wire, unless the connection has failed. */
  ghost predicate Sends(c: Caller, out: seq<Item>, dead: bool) {
    && (c.pc.WritingBody? ==> out != [] && out[|out| - 1] == HeadOf(c.req, c.seqNo))
    && (c.seqNo > 0 && !c.pc.WritingHead? && !c.pc.WritingBody? ==> dead || OnWire(out, c.req, c.seqNo))
  }

  ghost predicate SentOk(s: State, t: nat)
    requires t < |s.callers|
  {
    Sends(s.callers[t], s.out, s.dead)
  }

  lemma StaysOnWire(out: seq<Item>, item: Item, req: Request, seqNo: nat)
    requires OnWire(out, req, seqNo)
    ensures OnWire(out + [item], req, seqNo)
  {
    var i: nat :| FrameAt(out, i, req, seqNo);
    assert FrameAt(out + [item], i, req, seqNo);
  }

  /** While one caller writes, no other is between its header and its body. */
  lemma SentAsideWriter(s: State, step: Step, t: nat)
    requires Inv(s) && Enabled(s, step) && (step.WriteHead? || step.WriteBody?)
    requires t < |s.callers| && t != step.t && SentOk(s, t)
    ensures t < |Apply(s, step).callers| && SentOk(Apply(s, step), t)
  {
    var c, w := s.callers[t], s.callers[step.t];
    assert CallerOk(s, t) && CallerOk(s, step.t);
    assert Apply(s, step).callers[t] == c;
    if OnWire(s.out, c.req, c.seqNo) {
      StaysOnWire(s.out, HeadOf(w.req, w.seqNo), c.req, c.seqNo);
      StaysOnWire(s.out, Body(w.req.args), c.req, c.seqNo);
    }
  }

  lemma SentByWriter(s: State, step: Step)
    requires Inv(s) && Enabled(s, step) && (step.WriteHead? || step.WriteBody?) && SentOk(s, step.t)
    ensures step.t < |Apply(s, step).callers| && SentOk(Apply(s, step), step.t)
  {
    var s', c := Apply(s, step), s.callers[step.t];
    assert CallerOk(s, step.t);
    if step.WriteBody? && step.ok {
      assert FrameAt(s'.out, |s.out| - 1, c.req, c.seqNo);
    }
  }

  /** The other steps leave the wire alone, and bring no caller past its body. */
  lemma SentInSend(s: State, step: Step, t: nat)
    requires Inv(s) && Enabled(s, step) && InSend(step) && !step.WriteHead? && !step.WriteBody?
    requires t < |s.callers| && SentOk(s, t)
    ensures t < |Apply(s, step).callers| && SentOk(Apply(s, step), t)
  {
    assert CallerOk(s, t);
    match step
    case Lock(_) =>
    case Register(_) =>
    case Refuse(_) =>
    case Unlock(_) =>
  }

  lemma SentInReceive(s: State, step: Step, t: nat)
    requires Enabled(s, step) && InReceive(step) && t < |s.callers| && SentOk(s, t)
    ensures t < |Apply(s, step).callers| && SentOk(Apply(s, step), t)
  {
    PastHeadInReceive(s, step, t);
    RequestKeptInReceive(s, step, t);
    NothingSentInReceive(s, step);
  }

  lemma NothingSentInReceive(s: State, step: Step)
    requires Enabled(s, step) && InReceive(step)
    ensures Apply(s, step).out == s.out && Apply(s, step).dead == s.dead
  {
    match step
    case ReadHead(_) =>
    case FailHead =>
    case Take =>
    case ReadBody(_) =>
    case FailBody =>
    case Complete =>
  }

  lemma SentElsewhere(s: State, step: Step, t: nat)
    requires Enabled(s, step) && !InSend(step) && !InReceive(step) && t < |s.callers| && SentOk(s, t)
    ensures t < |Apply(s, step).callers| && SentOk(Apply(s, step), t)
  {
    match step
    case Go(_) =>
    case Receive(_) =>
    case Deadline(_) =>
    case Withdraw(_) =>
    case Close =>
    case Terminate =>
  }

  lemma SentStep(s: State, step: Step, t: nat)
    requires Inv(s) && Enabled(s, step) && t < |Apply(s, step).callers|
    requires t < |s.callers| ==> SentOk(s, t)
    ensures SentOk(Apply(s, step), t)
  {
    if t >= |s.callers| {
      OnlyGoAdds(s, step);
    } else if InReceive(step) {
      SentInReceive(s, step, t);
    } else if !InSend(step) {
      SentElsewhere(s, step, t);
    } else if !step.WriteHead? && !step.WriteBody? {
      SentInSend(s, step, t);
    } else if step.t == t {
      SentByWriter(s, step);
    } else {
      SentAsideWriter(s, step, t);
    }
  }

  lemma {:induction false} SentHolds(steps: seq<Step>, t: nat)
    requires Exec(steps).Some? && t < |Exec(steps).value.callers|
    ensures SentOk(Exec(steps).value, t)
  {
    if steps != [] {
      var before, step := steps[..|steps| - 1], steps[|steps| - 1];
      InvHolds(before);
      if t < |Exec(before).value.callers| {
        SentHolds(before, t);
      }
      SentStep(Exec(before).value, step, t);
    }
  }

  /** Every registered call that is past writing has its whole request on the wire, method, number and
      arguments, unless a write has failed or the connection has been closed. */
  lemma {:induction false} RequestIsOnTheWire(steps: seq<Step>, t: nat)
    requires Exec(steps).Some? && t < |Exec(steps).value.callers|
    requires var c := Exec(steps).value.callers[t]; c.seqNo > 0 && !c.pc.WritingHead? && !c.pc.WritingBody?
    ensures var s := Exec(steps).value;
            var c := s.callers[t];
            || (exists i: nat :: i + 1 < |s.out| &&
                  s.out[i] == Head(Header(c.req.serviceMethod, c.seqNo, "")) && s.out[i + 1] == Body(c.req.args))
            || (exists step :: step in steps && (FailsToWrite(step) || step == Close))
  {
    SentHolds(steps, t);
    var s := Exec(steps).value;
    if s.dead {
      DeadOnlyIf(steps);
    } else {
      var i: nat :| FrameAt(s.out, i, s.callers[t].req, s.callers[t].seqNo);
      assert s.out[i] == HeadOf(s.callers[t].req, s.callers[t].seqNo);
    }
  }

  // ---------------------------------------------------------------------------------
  // The end of sending

  predicate FailsToWrite(step: Step) {
    (step.WriteHead? || step.WriteBody?) && !step.ok
  }

  lemma DeadStep(s: State, step: Step)
    requires Enabled(s, step)
    ensures Apply(s, step).dead <==> s.dead || FailsToWrite(step) || (step == Close && !s.shutdown)
    ensures s.dead || FailsToWrite(step) ==> Apply(s, step).out == s.out
  {
    if InReceive(step) {
      NothingSentInReceive(s, step);
    } else {
      match step
      case Go(_) =>
      case Lock(_) =>
      case Register(_) =>
      case Refuse(_) =>
      case WriteHead(_, _) =>
      case WriteBody(_, _) =>
      case _ =>
    }
  }

  lemma {:induction false} DeadOnlyIf(steps: seq<Step>)
    requires Exec(steps).Some? && Exec(steps).value.dead
    ensures exists step :: step in steps && (FailsToWrite(step) || step == Close)
  {
    var before, step := steps[..|steps| - 1], steps[|steps| - 1];
    DeadStep(Exec(before).value, step);
    if FailsToWrite(step) || step == Close {
      assert step in steps;
    } else {
      DeadOnlyIf(before);
    }
  }

  /** A write that fails is the last: it closes the connection. */
  lemma {:induction false} FailedWriteIsLast(before: seq<Step>, step: Step, after: seq<Step>)
    requires Exec(before + [step] + after).Some? && FailsToWrite(step)
    ensures Exec(before).Some?
    ensures var s := Exec(before + [step] + after).value; s.dead && s.out == Exec(before).value.out
  {
    var all := before + [step] + after;
    if after == [] {
      assert all[..|all| - 1] == before && all[|all| - 1] == step;
      DeadStep(Exec(before).value, step);
    } else {
      var rest := after[..|after| - 1];
      assert all[..|all| - 1] == before + [step] + rest;
      FailedWriteIsLast(before, step, rest);
      DeadStep(Exec(before + [step] + rest).value, after[|after| - 1]);
    }
  }

  // ---------------------------------------------------------------------------------
  // The end of waiting

  predicate GaveUp(pc: Pc) {
    pc.Withdrawing? || pc == Returned(true)
  }

  lemma OthersInSend(s: State, step: Step, t: nat)
    requires Enabled(s, step) && InSend(step) && t < |s.callers| && step.t != t
    ensures t < |Apply(s, step).callers| && Apply(s, step).callers[t] == s.callers[t]
  {
    match step
    case Lock(_) =>
    case Register(_) =>
    case Refuse(_) =>
    case WriteHead(_, _) =>
    case WriteBody(_, _) =>
    case Unlock(_) =>
  }

  lemma GivesUpInSend(s: State, step: Step, t: nat)
    requires Enabled(s, step) && InSend(step) && t < |s.callers|
    ensures t < |Apply(s, step).callers|
    ensures GaveUp(Apply(s, step).callers[t].pc) <==> GaveUp(s.callers[t].pc)
  {
    if step.t != t {
      OthersInSend(s, step, t);
    } else {
      match step
      case Lock(_) =>
      case Register(_) =>
      case Refuse(_) =>
      case WriteHead(_, _) =>
      case WriteBody(_, _) =>
      case Unlock(_) =>
    }
  }

  lemma GivesUp(s: State, step: Step, t: nat)
    requires Enabled(s, step) && t < |s.callers|
    ensures t < |Apply(s, step).callers|
    ensures GaveUp(Apply(s, step).callers[t].pc) <==> GaveUp(s.callers[t].pc) || step == Deadline(t)
  {
    if InReceive(step) {
      PastHeadInReceive(s, step, t);
    } else if InSend(step) {
      GivesUpInSend(s, step, t);
    } else {
      match step
      case Go(_) =>
      case Receive(_) =>
      case Deadline(_) =>
      case Withdraw(_) =>
      case Close =>
      case Terminate =>
    }
  }

  /** A caller gives up exactly at its own deadline. */
  lemma {:induction false} GivesUpIff(steps: seq<Step>, t: nat)
    requires Exec(steps).Some? && t < |Exec(steps).value.callers|
    ensures GaveUp(Exec(steps).value.callers[t].pc) <==> Deadline(t) in steps
  {
    var before, step := steps[..|steps| - 1], steps[|steps| - 1];
    if t < |Exec(before).value.callers| {
      GivesUpIff(before, t);
      GivesUp(Exec(before).value, step, t);
    } else {
      OnlyGoAdds(Exec(before).value, step);
      NoDeadlineYet(before, t);
    }
    assert Deadline(t) in steps <==> Deadline(t) in before || step == Deadline(t);
  }

  lemma {:induction false} NoDeadlineYet(steps: seq<Step>, t: nat)
    requires Exec(steps).Some? && t >= |Exec(steps).value.callers|
    ensures Deadline(t) !in steps
  {
    if steps != [] {
      var before, step := steps[..|steps| - 1], steps[|steps| - 1];
      OnlyGoAdds(Exec(before).value, step);
      NoDeadlineYet(before, t);
      assert Deadline(t) in steps <==> Deadline(t) in before || step == Deadline(t);
    }
  }
}
