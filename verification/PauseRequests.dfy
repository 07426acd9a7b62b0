/** What becomes of single requests around a pause: who is queued, how the queue is served
    again, when a request ends, and how fused commands pair
    (nvmf/ctrlr.c:4024-4102, 4303-4419, 4458-4562; nvmf/nvmf.c:1728-1775). */
module PauseRequests {
  import opened Collections
  import opened Pause

  // Who is queued.

  /** What is in the way of a new request. */
  predicate IsHeld(s: State, r: Req) {
    if r.adminQueue || r.opcode == 0x7f then s.state != Active
    else 1 <= r.nsid <= |s.ns| && s.ns[r.nsid - 1].channel && s.ns[r.nsid - 1].pausing
  }

  /** A request is queued, untouched and last, if and only if its group is not active, for a
      management request, or its namespace is marked, for an I/O; nothing else happens then. */
  lemma {:induction false} QueuedIff(s: State, id: nat, r: Req, qpairActive: bool, o: Outcome)
    requires Inv(s) && Enabled(s, Exec(id, r, qpairActive, o))
    ensures var t := Step(s, Exec(id, r, qpairActive, o));
            if IsHeld(s, r) then t == s.(queued := s.queued + [(id, r)]) else t.queued == s.queued
  {
    if !Mgmt(r) && NsidValid(s, r) && !IsHeld(s, r) {
      AdmittedIo(s, id, r, o);
    } else if Mgmt(r) && s.state == Active {
      ExecKeeps(s, id, r, qpairActive, o);
    }
    hide Core, FusedOk, QueueOk, DispatchIo, DispatchMgmt, Completed, NsBusy, Counted;
  }

  lemma {:induction false} AdmittedIo(s: State, id: nat, r: Req, o: Outcome)
    requires Inv(s) && Fresh(s, id, r) && !Mgmt(r) && NsidValid(s, r)
    ensures var s1 := Counted(s, id, r);
            && Core(s1) && FusedOk(s1) && !IsHeldFirst(s1, id) && id in s1.flight && s1.flight[id] == r.(counted := true)
            && s1.queued == s.queued && s1.state == s.state && s1.firstFused == s.firstFused
            && Completed(s1, id, true).queued == s.queued && DispatchIo(s1, id, o).queued == s.queued
  {
    var s1 := Counted(s, id, r);
    CountedKeeps(s, id, r);
    CompletedKeepsFused(s1, id, true);
    DispatchIoKeeps(s1, id, o);
    hide Core, FusedOk, DispatchIo, Completed, NsBusy;
  }

  /** While the group is active nothing is queued, and the queue only gets shorter, from its
      head on. */
  lemma {:induction false} ActiveQueuesNothing(s: State, e: Event)
    requires Inv(s) && Enabled(s, e) && s.state == Active
    ensures Step(s, e).queued == if e.Release? then s.queued[1..] else s.queued
  {
    match e {
      case Exec(id, r, qpairActive, o) => QueuedIff(s, id, r, qpairActive, o);
      case ExecFabrics(id, r, o) => DispatchMgmtKeeps(s, id, r, o);
      case Release(qpairActive, o) => ReleaseIsExec(s, qpairActive, o);
      case Retry(id, o) =>
        WokenKeeps(s, id);
        DispatchMgmtKeeps(s.(flight := s.flight - {id}), id, s.flight[id].(waiting := false), o);
      case Complete(id, error) => CompletedKeeps(s, id, error);
      case _ =>
    }
    hide Core, FusedOk, QueueOk, DispatchMgmt, Completed, NsBusy, ExecStep;
  }

  /** The head of the queue is served as if it came in just then. */
  lemma {:induction false} ReleaseIsExec(s: State, qpairActive: bool, o: Outcome)
    requires Inv(s) && Enabled(s, Release(qpairActive, o))
    ensures var rest := s.(queued := s.queued[1..]);
            var e := Exec(s.queued[0].0, s.queued[0].1, qpairActive, o);
            && Inv(rest) && Enabled(rest, e) && Step(s, Release(qpairActive, o)) == Step(rest, e)
            && Step(rest, e).queued == rest.queued
  {
    var rest := s.(queued := s.queued[1..]);
    var (id, r) := s.queued[0];
    QueueTail(s);
    QueuedIff(rest, id, r, qpairActive, o);
    hide Core, FusedOk, QueueOk, ExecStep;
  }

  lemma {:induction false} QueueTail(s: State)
    requires Inv(s) && s.queued != []
    ensures Inv(s.(queued := s.queued[1..])) && Fresh(s, s.queued[0].0, s.queued[0].1)
    ensures forall k :: 0 <= k < |s.queued[1..]| ==> s.queued[1..][k].0 != s.queued[0].0
  {
    var rest := s.(queued := s.queued[1..]);
    assert FusedOk(rest) && FlightOk(rest);
    assert Fresh(s, s.queued[0].0, s.queued[0].1);
  }

  // The queue after a pause.

  /** An ordinary request to something that exists. */
  predicate Plain(s: State, r: Req) {
    r.fuse.Single? && (!Mgmt(r) ==> NsidValid(s, r) && s.ns[r.nsid - 1].channel)
  }

  function Releases(n: nat): (r: seq<Event>)
    ensures |r| == n
  {
    if n == 0 then [] else [Release(true, Async)] + Releases(n - 1)
  }

  /** A plain request that goes on asynchronously is in flight, and nobody else is affected. */
  lemma {:induction false} PlainIsAdmitted(s: State, id: nat, r: Req)
    requires Inv(s) && Enabled(s, Exec(id, r, true, Async)) && s.state == Active && s.firstFused == map[] && Plain(s, r)
    ensures var t := Step(s, Exec(id, r, true, Async));
            && id in t.flight && t.flight == s.flight[id := t.flight[id]] && t.flight[id].qpair == r.qpair
            && t.state == Active && t.firstFused == map[] && |t.ns| == |s.ns|
            && forall n :: 0 <= n < |s.ns| ==> t.ns[n].channel == s.ns[n].channel
  {
    assert Owed(s);
    hide Core, QueueOk, NsBusy, Completed;
  }

  lemma {:induction false} HeadIsServed(s: State)
    requires Inv(s) && s.state == Active && s.firstFused == map[] && s.queued != [] && Plain(s, s.queued[0].1)
    ensures Enabled(s, Release(true, Async))
    ensures var t := Step(s, Release(true, Async));
            && Inv(t) && t.state == Active && t.firstFused == map[] && t.queued == s.queued[1..]
            && s.queued[0].0 in t.flight && (forall id :: id in s.flight ==> id in t.flight && t.flight[id] == s.flight[id])
            && forall r :: Plain(s, r) ==> Plain(t, r)
  {
    var (id, r) := s.queued[0];
    QueueTail(s);
    ReleaseIsExec(s, true, Async);
    PlainIsAdmitted(s.(queued := s.queued[1..]), id, r);
    StepIsOk(s, Release(true, Async));
    hide Step, Inv;
  }

  /** After a pause every queued request is served, in order: with plain requests that go on
      asynchronously, `n` releases put the first `n` of the queue in flight, end none that was
      there and leave the rest queued. */
  lemma {:induction false} QueueIsServed(s: State, n: nat)
    requires Inv(s) && s.state == Active && s.firstFused == map[] && n <= |s.queued|
    requires forall k :: 0 <= k < |s.queued| ==> Plain(s, s.queued[k].1)
    ensures Admissible(s, Releases(n))
    ensures var t := Run(s, Releases(n));
            && t.queued == s.queued[n..] && (forall k :: 0 <= k < n ==> s.queued[k].0 in t.flight)
            && forall id :: id in s.flight ==> id in t.flight && t.flight[id] == s.flight[id]
    decreases n
  {
    if n > 0 {
      HeadIsServed(s);
      var t := Step(s, Release(true, Async));
      hide Step, Inv, Plain, Enabled;
      QueueIsServed(t, n - 1);
      ServedAfterFirst(s, t, n);
      assert s.queued[1..][n - 1..] == s.queued[n..];
      forall k | 0 <= k < n ensures s.queued[k].0 in Run(s, Releases(n)).flight {
        if k > 0 {
          assert s.queued[k] == t.queued[k - 1];
        }
      }
    }
  }

  lemma {:induction false} ServedAfterFirst(s: State, t: State, n: nat)
    requires Inv(s) && 0 < n <= |s.queued| && Enabled(s, Release(true, Async)) && t == Step(s, Release(true, Async))
    requires Admissible(t, Releases(n - 1))
    ensures Admissible(s, Releases(n)) && Run(s, Releases(n)) == Run(t, Releases(n - 1))
  {
    assert Releases(n)[0] == Release(true, Async) && Releases(n)[1..] == Releases(n - 1);
    hide Step, Inv;
  }

  /** Resuming makes the group active and clears every mark; it ends and serves nothing itself. */
  lemma {:induction false} ResumeClears(s: State)
    requires Inv(s) && Enabled(s, Resume)
    ensures var t := Step(s, Resume);
            && Inv(t) && t.state == Active && |t.ns| == |s.ns| && t.flight == s.flight && t.queued == s.queued
            && t.firstFused == s.firstFused && t.mgmt == s.mgmt
            && forall n :: 0 <= n < |t.ns| ==> t.ns[n] == s.ns[n].(pausing := false)
  {
    StepIsOk(s, Resume);
    ResumeKeeps(s);
    assert Owed(s);
    hide Core, FusedOk, QueueOk, NsBusy;
  }

  // What is served.

  /** A request that is not held ends at once, and nothing else does, on a queue pair that is not
      active and, for an I/O, if its namespace does not exist or has no channel. */
  lemma {:induction false} RefusedEnds(s: State, id: nat, r: Req, qpairActive: bool, o: Outcome)
    requires Inv(s) && Enabled(s, Exec(id, r, qpairActive, o)) && !IsHeld(s, r)
    requires !qpairActive || (!Mgmt(r) && !(NsidValid(s, r) && s.ns[r.nsid - 1].channel))
    ensures var t := Step(s, Exec(id, r, qpairActive, o));
            t.flight == s.flight && t.firstFused == s.firstFused && t.queued == s.queued
  {
    QueuedIff(s, id, r, qpairActive, o);
    if Mgmt(r) || NsidValid(s, r) {
      CompletedIs(Counted(s, id, r), id, true);
    }
    hide Core, FusedOk, QueueOk, DispatchIo, DispatchMgmt, Completed, NsBusy;
  }

  /** A management request that is served ends at once if it is done or failed, waits to be tried
      again if it is a connect that asks for it, and is counted until it completes otherwise. An
      asynchronous event request waits uncounted unless it is done. */
  lemma {:induction false} MgmtLeadsTo(s: State, id: nat, r: Req, o: Outcome)
    requires Inv(s) && Fresh(s, id, r) && Mgmt(r)
    ensures var t := DispatchMgmt(s, id, r, o);
            && t.flight - {id} == s.flight
            && (if IsAer(r) then id in t.flight <==> !o.Done? else id in t.flight <==> o.Async? || o.RetryConnect?)
            && (id in t.flight ==>
                  && t.flight[id].waiting == (!IsAer(r) && r.connect && o.RetryConnect?)
                  && t.flight[id].counted == (!IsAer(r) && !t.flight[id].waiting))
  {
    CompletedIs(Counted(s, id, r), id, true);
    hide Core, FusedOk, QueueOk, Completed;
  }

  /** So is one that comes in by either way, or is tried again. */
  lemma {:induction false} MgmtIsDispatched(s: State, id: nat, r: Req, o: Outcome)
    requires Inv(s)
    ensures Enabled(s, ExecFabrics(id, r, o)) ==> Step(s, ExecFabrics(id, r, o)) == DispatchMgmt(s, id, r, o)
    ensures Enabled(s, Exec(id, r, true, o)) && Mgmt(r) && s.state == Active ==>
              Step(s, Exec(id, r, true, o)) == DispatchMgmt(s, id, r, o)
    ensures Enabled(s, Retry(id, o)) ==>
              var was := s.flight[id].(waiting := false);
              && Mgmt(was) && was.connect
              && Step(s, Retry(id, o)) == DispatchMgmt(s.(flight := s.flight - {id}), id, was, o)
  {
    if Enabled(s, Retry(id, o)) {
      assert WfReq(s, s.flight[id]);
      assert s.flight - {id} + map[id := s.flight[id]] == s.flight;
    }
    hide Core, FusedOk, QueueOk;
  }

  // When a request ends.

  /** A completion ends a request unless it is a zero-copy one whose start has just succeeded or
      which has not been asked to end; that one goes on executing. */
  lemma {:induction false} CompletionEndsIff(s: State, id: nat, error: bool)
    requires Inv(s) && Enabled(s, Complete(id, error))
    ensures var r, t := s.flight[id], Step(s, Complete(id, error));
            && (id in t.flight <==> (r.phase == Init && !error) || r.phase == Execute)
            && t.flight == (if id in t.flight then s.flight[id := r.(phase := Execute)] else s.flight - {id})
            && t.queued == s.queued && t.firstFused == s.firstFused
  {
    CompletedKeeps(s, id, error);
    CompletedIs(s, id, error);
    hide Core, FusedOk, QueueOk, Completed;
  }

  /** Once it is asked to end, the next completion ends it. */
  lemma {:induction false} EndThenCompletes(s: State, id: nat, error: bool)
    requires Inv(s) && Enabled(s, ZcopyEnd(id))
    ensures var t := Step(s, ZcopyEnd(id));
            && Inv(t) && t == s.(flight := s.flight[id := s.flight[id].(phase := EndPending)])
            && Enabled(t, Complete(id, error)) && id !in Step(t, Complete(id, error)).flight
  {
    var t := Step(s, ZcopyEnd(id));
    StepIsOk(s, ZcopyEnd(id));
    assert WfReq(s, s.flight[id]);
    assert !IsHeldFirst(t, id) by {
      assert forall q :: q in s.firstFused ==> s.flight[s.firstFused[q]].phase == NoZcopy;
    }
    CompletionEndsIff(t, id, error);
    hide Inv, Completed;
  }

  /** A zero-copy request that was started goes on, and stays counted, until it is asked to end. */
  lemma {:induction false} ExecutesUntilEnd(s: State, es: seq<Event>, id: nat)
    requires Inv(s) && Admissible(s, es) && id in s.flight && s.flight[id].phase == Execute
    requires ZcopyEnd(id) !in es
    ensures var t := Run(s, es); id in t.flight && t.flight[id] == s.flight[id]
    decreases |es|
  {
    if es != [] {
      StepIsOk(s, es[0]);
      ExecuteStays(s, es[0], id);
      hide Step, Inv;
      ExecutesUntilEnd(Step(s, es[0]), es[1..], id);
    }
  }

  lemma {:induction false} ExecuteStays(s: State, e: Event, id: nat)
    requires Inv(s) && Enabled(s, e) && id in s.flight && s.flight[id].phase == Execute && e != ZcopyEnd(id)
    ensures var t := Step(s, e); id in t.flight && t.flight[id] == s.flight[id]
  {
    match e {
      case Exec(_, r, qpairActive, o) => ExecLeaves(s, e.id, r, qpairActive, o, id);
      case ExecFabrics(_, r, o) => MgmtLeaves(s, e.id, r, o, id);
      case Release(qpairActive, o) =>
        ReleaseIsExec(s, qpairActive, o);
        ExecLeaves(s.(queued := s.queued[1..]), s.queued[0].0, s.queued[0].1, qpairActive, o, id);
      case Retry(_, o) =>
        assert WfReq(s, s.flight[e.id]) && WfReq(s, s.flight[id]);
        WokenKeeps(s, e.id);
        MgmtLeaves(s.(flight := s.flight - {e.id}), e.id, s.flight[e.id].(waiting := false), o, id);
      case _ =>
    }
    hide Core, FusedOk, QueueOk, NsBusy, ExecStep, DispatchMgmt;
  }

  lemma {:induction false} MgmtLeaves(s: State, id: nat, r: Req, o: Outcome, other: nat)
    requires Core(s) && FusedOk(s) && Fresh(s, id, r) && Mgmt(r) && other in s.flight
    ensures var t := DispatchMgmt(s, id, r, o); other in t.flight && t.flight[other] == s.flight[other]
  {
    hide Core, FusedOk, NsBusy;
  }

  /** What comes in ends no request but itself and a held first command, which is not zero-copy. */
  lemma {:induction false} ExecLeaves(s: State, id: nat, r: Req, qpairActive: bool, o: Outcome, other: nat)
    requires Core(s) && FusedOk(s) && Fresh(s, id, r) && other in s.flight && s.flight[other].phase == Execute
    ensures var t := ExecStep(s, id, r, qpairActive, o); other in t.flight && t.flight[other] == s.flight[other]
  {
    if Mgmt(r) {
      MgmtLeaves(s, id, r, o, other);
      CompletedIs(Counted(s, id, r), id, true);
    } else if NsidValid(s, r) {
      CountedKeeps(s, id, r);
      CompletedIs(Counted(s, id, r), id, true);
      IoLeaves(Counted(s, id, r), id, o, other);
    }
    hide Core, FusedOk, NsBusy, DispatchIo, DispatchMgmt, Completed;
  }

  lemma {:induction false} IoLeaves(s: State, id: nat, o: Outcome, other: nat)
    requires Core(s) && FusedOk(s) && id in s.flight && !Mgmt(s.flight[id]) && NsidValid(s, s.flight[id])
    requires !IsHeldFirst(s, id) && other in s.flight && other != id && s.flight[other].phase == Execute
    ensures var t := DispatchIo(s, id, o); other in t.flight && t.flight[other] == s.flight[other]
  {
    if o.EarlyFail? {
      CompletedIs(s, id, true);
      assert DispatchIo(s, id, o) == Completed(s, id, true);
    } else {
      DispatchedLeaves(s, id, o, other);
    }
    hide DispatchIo, Core, FusedOk, Completed, IsHeldFirst;
  }

  lemma {:induction false} DispatchedLeaves(s: State, id: nat, o: Outcome, other: nat)
    requires Core(s) && FusedOk(s) && id in s.flight && !Mgmt(s.flight[id]) && NsidValid(s, s.flight[id]) && !o.EarlyFail?
    requires !IsHeldFirst(s, id) && other in s.flight && other != id && s.flight[other].phase == Execute
    ensures var t := DispatchIo(s, id, o); other in t.flight && t.flight[other] == s.flight[other]
  {
    var q, t := s.flight[id].qpair, DispatchIo(s, id, o);
    assert q in s.firstFused ==> s.flight[s.firstFused[q]].phase == NoZcopy;
    FusedLeadsTo(s, id, o);
    SingleLeadsTo(s, id, o);
    hide DispatchIo, Core, FusedOk, IsHeldFirst;
    assert other in HeldEnded(s, q) - {id};
    assert s.flight[id].fuse.Single? ==> other in t.flight - {id};
  }

  // Fused commands.

  lemma {:induction false} CompletedIs(s: State, id: nat, error: bool)
    requires id in s.flight && (!Mgmt(s.flight[id]) ==> NsidValid(s, s.flight[id]))
    ensures var r, t := s.flight[id], Completed(s, id, error);
            && t.firstFused == s.firstFused
            && t.flight == if Ends(r, error) then s.flight - {id} else s.flight[id := r.(phase := Execute)]
  {
    hide NsBusy;
  }

  /** The flight without the command its queue pair holds. */
  function HeldEnded(s: State, q: nat): map<nat, Req> {
    if q in s.firstFused then s.flight - {s.firstFused[q]} else s.flight
  }

  /** How an admitted fused command meets its queue pair. A first one takes the place of one that
      is held there, which ends; with none held it must be a compare. A second one ends at once if
      none is held; a write goes on together with the held one, anything else ends both. */
  lemma {:induction false} FusedLeadsTo(s: State, id: nat, o: Outcome)
    requires Core(s) && FusedOk(s) && id in s.flight && !Mgmt(s.flight[id]) && NsidValid(s, s.flight[id])
    requires !IsHeldFirst(s, id) && !o.EarlyFail?
    ensures var r, t := s.flight[id], DispatchIo(s, id, o);
            var q, held := r.qpair, r.qpair in s.firstFused;
            match r.fuse
            case First =>
              if held || r.opcode == OPC_COMPARE then t.firstFused == s.firstFused[q := id] && t.flight == HeldEnded(s, q)
              else t.firstFused == s.firstFused && t.flight == s.flight - {id}
            case Second =>
              if !held then t.firstFused == s.firstFused && t.flight == s.flight - {id}
              else t.firstFused == s.firstFused - {q}
                   && t.flight == if r.opcode == OPC_WRITE && !o.Done? then s.flight else HeldEnded(s, q) - {id}
            case InvalidFuse => t.firstFused == s.firstFused && t.flight == s.flight - {id}
            case Single => true
  {
    var r := s.flight[id];
    assert WfReq(s, r);
    AbortFirstKeeps(s, r.qpair);
    CompletedIs(s, id, true);
    AbortThenCompleteKeeps(s, id, r.qpair, true);
    CompletedIs(AbortFirst(s, r.qpair), id, true);
    hide Core, FusedOk, Sound, AbortFirst, IsHeldFirst, Completed;
  }

  /** An ordinary command ends the one its queue pair holds, and itself only if it is done; a
      zero-copy start that has succeeded is not. */
  lemma {:induction false} SingleLeadsTo(s: State, id: nat, o: Outcome)
    requires Core(s) && FusedOk(s) && id in s.flight && !Mgmt(s.flight[id]) && NsidValid(s, s.flight[id])
    requires !IsHeldFirst(s, id) && !o.EarlyFail?
    ensures var r, t := s.flight[id], DispatchIo(s, id, o);
            r.fuse.Single? ==>
              && t.firstFused == s.firstFused - {r.qpair}
              && (id in t.flight <==> !o.Done? || (r.phase == Init && !o.error) || r.phase == Execute)
              && t.flight - {id} == HeldEnded(s, r.qpair) - {id}
  {
    var r := s.flight[id];
    assert WfReq(s, r);
    HeldIsEnded(s, r.qpair);
    if r.fuse.Single? {
      SingleIs(s, id, o);
      if o.Done? {
        CompletedIs(AbortFirst(s, r.qpair), id, o.error);
      }
    }
    hide DispatchIo, Core, FusedOk, AbortFirst, IsHeldFirst, Completed, HeldEnded, NsidValid, WfReq;
  }

  lemma {:induction false} HeldIsEnded(s: State, q: nat)
    requires Core(s) && FusedOk(s)
    ensures AbortFirst(s, q).flight == HeldEnded(s, q) && AbortFirst(s, q).firstFused == s.firstFused - {q}
  {
    AbortFirstKeeps(s, q);
    hide Core, AbortFirst, Sound;
  }

  lemma {:induction false} SingleIs(s: State, id: nat, o: Outcome)
    requires Core(s) && FusedOk(s) && id in s.flight && !Mgmt(s.flight[id]) && NsidValid(s, s.flight[id])
    requires !IsHeldFirst(s, id) && !o.EarlyFail? && s.flight[id].fuse.Single?
    ensures var s1 := AbortFirst(s, s.flight[id].qpair);
            && id in s1.flight && s1.flight[id] == s.flight[id] && NsidValid(s1, s.flight[id])
            && DispatchIo(s, id, o) == if o.Done? then Completed(s1, id, o.error) else s1
  {
    AbortThenCompleteKeeps(s, id, s.flight[id].qpair, true);
    hide Core, FusedOk, Sound, AbortFirst, Completed;
  }
}
