/** The critical sections of the client as they run on its fields, each proved to be the step of
    the machine in module `RpcClient`. */
module RpcClientObject {
  import opened M = RpcClient

  /** A `*Call`; `done` counts the sends on its channel. `id` is its place in `State.callers`. */
  class Call {
    ghost const id: nat
    var seqNo: nat
    var err: CallError
    var done: nat

    constructor (ghost id: nat)
      ensures this.id == id && seqNo == 0 && err == NoError && done == 0
    {
      this.id := id;
      seqNo, err, done := 0, NoError, 0;
    }
  }

  class Client {
    var next: nat
    var pending: map<nat, Call>
    var closing: bool
    var shutdown: bool

    constructor ()
      ensures Shows(INIT, [])
    {
      next, pending, closing, shutdown := 1, map[], false, false;
    }

    ghost predicate ShowsCall(call: Call, c: Caller)
      reads call
    {
      call.seqNo == c.seqNo && call.err == c.err && call.done == c.done
    }

    /** The fields of the client and of its calls are those of machine state `s`. */
    ghost predicate Shows(s: State, calls: seq<Call>)
      reads this, calls
    {
      && next == s.next && closing == s.closing && shutdown == s.shutdown
      && |calls| == |s.callers|
      && (forall t :: 0 <= t < |calls| ==> calls[t].id == t && ShowsCall(calls[t], s.callers[t]))
      && pending.Keys == s.pending.Keys
      && (forall k :: k in pending ==> s.pending[k] < |calls| && pending[k] == calls[s.pending[k]])
    }

    /** `registerCall`, and the assignment of its error in `send`. */
    method Register(call: Call, ghost s: State, ghost calls: seq<Call>) returns (ok: bool)
      requires Shows(s, calls) && call in calls
      modifies this, call
      ensures Shows(Registered(s, call.id), calls)
      ensures ok == (Registered(s, call.id).callers[call.id].pc == WritingHead)
    {
      if shutdown || closing {
        call.err := ErrShutdown;
        return false;
      }
      call.seqNo := next;
      pending := pending[next := call];
      next := next + 1;
      return true;
    }

    method RemoveCall(seqNo: nat, ghost s: State, ghost calls: seq<Call>) returns (call: Call?)
      requires Shows(s, calls)
      modifies this
      ensures Shows(s.(pending := s.pending - {seqNo}), calls)
      ensures match Find(s.pending, seqNo)
              case None => call == null
              case Some(t) => t < |calls| && call == calls[t]
    {
      call := if seqNo in pending then pending[seqNo] else null;
      pending := pending - {seqNo};
    }

    /** `call.Error = err; call.done()`: needs room in the one-slot channel. */
    method Fail(call: Call)
      requires call.done == 0
      modifies call
      ensures call.err == Broken && call.done == 1 && call.seqNo == old(call.seqNo)
    {
      call.err := Broken;
      call.done := call.done + 1;
    }

    /** The loop of `terminateCalls` with the numbers in `rest` still to come. */
    ghost predicate Halfway(s: State, calls: seq<Call>, rest: set<nat>)
      reads calls
    {
      && |calls| == |s.callers|
      && forall t :: 0 <= t < |calls| ==>
           && calls[t].id == t
           && ShowsCall(calls[t],
                        if s.callers[t].seqNo in rest then s.callers[t] else Completed(s.callers, s.pending)[t])
    }

    method CompleteOne(k: nat, call: Call, ghost s: State, ghost calls: seq<Call>, ghost rest: set<nat>)
      requires Inv(s) && s.recv.Terminating? && Halfway(s, calls, rest)
      requires k in rest && k in s.pending && s.pending[k] < |calls| && call == calls[s.pending[k]]
      modifies call
      ensures Halfway(s, calls, rest - {k})
    {
      ghost var t := s.pending[k];
      assert PendingOk(s, k) && IssuedOk(s, k) && CallerOk(s, t);
      Fail(call);
    }

    /** `terminateCalls`, walking over `pending` in any order. It does not empty the map. */
    method TerminateCalls(ghost s: State, ghost calls: seq<Call>)
      requires Shows(s, calls) && Inv(s) && s.recv.Terminating?
      modifies `shutdown, calls
      ensures Shows(s.(shutdown := true, callers := Completed(s.callers, s.pending)), calls)
    {
      shutdown := true;
      CompleteAll(s, calls);
    }

    /** The loop of `terminateCalls`. */
    method CompleteAll(ghost s: State, ghost calls: seq<Call>)
      requires Inv(s) && s.recv.Terminating? && Halfway(s, calls, s.pending.Keys)
      requires pending.Keys == s.pending.Keys
      requires forall k :: k in pending ==> s.pending[k] < |calls| && pending[k] == calls[s.pending[k]]
      modifies calls
      ensures Halfway(s, calls, {})
    {
      var rest := pending.Keys;
      while rest != {}
        invariant rest <= s.pending.Keys && Halfway(s, calls, rest)
        decreases |rest|
      {
        var k := Any(rest);
        CompleteOne(k, pending[k], s, calls, rest);
        rest := rest - {k};
      }
    }
  }

  method Any(s: set<nat>) returns (x: nat)
    requires s != {}
    ensures x in s
  {
    x :| x in s;
  }
}
