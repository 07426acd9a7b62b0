/** Which requests never give their count back, and when a pause can still complete
    (nvmf/ctrlr.c:3526-3534, 4032-4052, 4303-4419, 4458-4562). */
module PauseLeaks {
  import opened Collections
  import opened Pause

  // What leaks.

  /** I/Os in flight whose opcode is taken for that of an asynchronous event request. */
  function VerifyIn(m: map<nat, Req>, nsid: nat): set<nat> {
    set id | id in m && !Mgmt(m[id]) && IsAer(m[id]) && m[id].nsid == nsid
  }

  /** What namespace `n` has leaked or will have leaked when these end. */
  function Lost(s: State, n: nat): nat
    requires n < |s.ns|
  {
    s.ns[n].leak + |VerifyIn(s.flight, n + 1)|
  }

  /** `r` is such an I/O and is counted for namespace `n` at once. */
  predicate CountsVerify(s: State, r: Req, n: nat)
    requires n < |s.ns|
  {
    !Mgmt(r) && IsAer(r) && r.nsid == n + 1 && !(s.ns[n].channel && s.ns[n].pausing)
  }

  predicate AdmitsVerify(s: State, e: Event, n: nat)
    requires n < |s.ns|
  {
    match e
    case Exec(_, r, _, _) => CountsVerify(s, r, n)
    case Release(_, _) => s.queued != [] && CountsVerify(s, s.queued[0].1, n)
    case _ => false
  }

  /** An asynchronous event request admitted on an inactive queue pair. */
  predicate LeakyAer(s: State, r: Req, qpairActive: bool) {
    Mgmt(r) && IsAer(r) && s.state == Active && !qpairActive
  }

  predicate LeaksMgmt(s: State, e: Event) {
    match e
    case Exec(_, r, qpairActive, _) => LeakyAer(s, r, qpairActive)
    case Release(qpairActive, _) => s.queued != [] && LeakyAer(s, s.queued[0].1, qpairActive)
    case _ => false
  }

  /** Namespace `n` loses `more`, and what it has leaked stays leaked. */
  ghost predicate LostAt(s: State, s': State, n: nat, more: bool) {
    && n < |s.ns| == |s'.ns| && s'.ns[n].leak >= s.ns[n].leak && s'.ns[n].channel == s.ns[n].channel
    && Lost(s', n) == Lost(s, n) + (if more then 1 else 0)
  }

  lemma {:induction false} VerifyPut(m: map<nat, Req>, id: nat, r: Req, nsid: nat)
    ensures |VerifyIn(m[id := r], nsid)| == |VerifyIn(m - {id}, nsid)| + (if !Mgmt(r) && IsAer(r) && r.nsid == nsid then 1 else 0)
  {
    CardWithout(VerifyIn(m[id := r], nsid), id);
    assert VerifyIn(m[id := r], nsid) - {id} == VerifyIn(m - {id}, nsid) by {
      assert forall k :: k != id ==> (k in VerifyIn(m[id := r], nsid) <==> k in VerifyIn(m - {id}, nsid));
    }
  }

  lemma {:induction false} VerifyDrop(m: map<nat, Req>, id: nat, nsid: nat)
    requires id in m
    ensures |VerifyIn(m, nsid)| == |VerifyIn(m - {id}, nsid)| + (if !Mgmt(m[id]) && IsAer(m[id]) && m[id].nsid == nsid then 1 else 0)
  {
    assert m[id := m[id]] == m;
    VerifyPut(m, id, m[id], nsid);
  }

  lemma {:induction false} VerifyNew(m: map<nat, Req>, id: nat, r: Req, nsid: nat)
    requires id !in m
    ensures |VerifyIn(m[id := r], nsid)| == |VerifyIn(m, nsid)| + (if !Mgmt(r) && IsAer(r) && r.nsid == nsid then 1 else 0)
  {
    assert m - {id} == m;
    VerifyPut(m, id, r, nsid);
  }

  lemma {:induction false} CompletedLost(s: State, id: nat, error: bool, n: nat)
    requires n < |s.ns| && id in s.flight && WfReq(s, s.flight[id])
    ensures LostAt(s, Completed(s, id, error), n, false)
  {
    var r := s.flight[id];
    VerifyDrop(s.flight, id, n + 1);
    VerifyPut(s.flight, id, r.(phase := Execute), n + 1);
    hide VerifyIn, NsBusy;
  }

  lemma {:induction false} CountedLost(s: State, id: nat, r: Req, n: nat)
    requires n < |s.ns| && id !in s.flight && (!Mgmt(r) ==> NsidValid(s, r))
    ensures LostAt(s, Counted(s, id, r), n, !Mgmt(r) && IsAer(r) && r.nsid == n + 1)
  {
    VerifyNew(s.flight, id, r.(counted := true, waiting := false), n + 1);
    hide VerifyIn;
  }

  lemma {:induction false} DispatchMgmtLost(s: State, id: nat, r: Req, o: Outcome, n: nat)
    requires n < |s.ns| && Core(s) && FusedOk(s) && Fresh(s, id, r) && Mgmt(r)
    ensures LostAt(s, DispatchMgmt(s, id, r, o), n, false)
  {
    VerifyNew(s.flight, id, r.(counted := false, waiting := IsAer(r)), n + 1);
    VerifyNew(s.flight, id, r.(counted := false, waiting := !IsAer(r)), n + 1);
    CountedLost(s, id, r, n);
    if !IsAer(r) {
      CompletedLost(Counted(s, id, r), id, true, n);
    }
    hide VerifyIn, Core, Completed;
  }

  lemma {:induction false} AbortFirstLost(s: State, q: nat, n: nat)
    requires n < |s.ns| && Core(s) && FusedOk(s)
    ensures LostAt(s, AbortFirst(s, q), n, false)
  {
    if q in s.firstFused {
      assert WfReq(s, s.flight[s.firstFused[q]]);
      CompletedLost(s, s.firstFused[q], true, n);
      hide VerifyIn, Core, Completed;
    }
  }

  lemma {:induction false} AbortThenLost(s: State, id: nat, q: nat, error: bool, n: nat)
    requires n < |s.ns| && Core(s) && FusedOk(s) && id in s.flight && !Mgmt(s.flight[id]) && !IsHeldFirst(s, id)
    ensures var s1 := AbortFirst(s, q);
            && LostAt(s, s1, n, false) && id in s1.flight && s1.flight[id] == s.flight[id] && NsidValid(s1, s.flight[id])
            && LostAt(s, Completed(s1, id, error), n, false)
  {
    AbortFirstLost(s, q, n);
    AbortThenCompleteKeeps(s, id, q, error);
    var s1 := AbortFirst(s, q);
    assert WfReq(s1, s1.flight[id]);
    CompletedLost(s1, id, error, n);
    hide Core, FusedOk, AbortFirst, Completed, Lost;
  }

  lemma {:induction false} FirstFusedLost(s: State, s': State, firstFused: map<nat, nat>, n: nat)
    requires LostAt(s, s', n, false)
    ensures LostAt(s, s'.(firstFused := firstFused), n, false)
  {
    hide VerifyIn;
  }

  lemma {:induction false} DispatchIoLost(s: State, id: nat, o: Outcome, n: nat)
    requires n < |s.ns| && Core(s) && FusedOk(s) && id in s.flight && !Mgmt(s.flight[id]) && NsidValid(s, s.flight[id])
    requires !IsHeldFirst(s, id)
    ensures LostAt(s, DispatchIo(s, id, o), n, false)
  {
    var r := s.flight[id];
    var q := r.qpair;
    assert WfReq(s, r);
    CompletedLost(s, id, true, n);
    AbortThenLost(s, id, q, if o.Done? && r.fuse.Single? then o.error else true, n);
    FirstFusedLost(s, AbortFirst(s, q), s.firstFused[q := id], n);
    FirstFusedLost(s, s, s.firstFused - {q}, n);
    hide Core, FusedOk, AbortFirst, Completed, LostAt, IsHeldFirst, WfReq;
  }

  lemma {:induction false} ExecLost(s: State, id: nat, r: Req, qpairActive: bool, o: Outcome, n: nat)
    requires n < |s.ns| && Core(s) && FusedOk(s) && Fresh(s, id, r)
    ensures LostAt(s, ExecStep(s, id, r, qpairActive, o), n, CountsVerify(s, r, n))
  {
    if Mgmt(r) {
      ExecMgmtLost(s, id, r, qpairActive, o, n);
    } else if NsidValid(s, r) {
      ExecIoLost(s, id, r, qpairActive, o, n);
    }
  }

  lemma {:induction false} ExecIoLost(s: State, id: nat, r: Req, qpairActive: bool, o: Outcome, n: nat)
    requires n < |s.ns| && Core(s) && FusedOk(s) && Fresh(s, id, r) && !Mgmt(r) && NsidValid(s, r)
    ensures LostAt(s, ExecStep(s, id, r, qpairActive, o), n, CountsVerify(s, r, n))
  {
    CountedKeeps(s, id, r);
    var s1 := Counted(s, id, r);
    if s.ns[r.nsid - 1].channel && s.ns[r.nsid - 1].pausing {
      hide Core, FusedOk;
    } else {
      CountedLost(s, id, r, n);
      assert WfReq(s1, s1.flight[id]);
      CompletedLost(s1, id, true, n);
      DispatchIoLost(s1, id, o, n);
      LostThen(s, s1, ExecStep(s, id, r, qpairActive, o), n, CountsVerify(s, r, n));
      hide Core, FusedOk, Completed, DispatchIo, LostAt;
    }
  }

  lemma {:induction false} LostThen(s: State, s1: State, s2: State, n: nat, more: bool)
    requires LostAt(s, s1, n, more) && LostAt(s1, s2, n, false)
    ensures LostAt(s, s2, n, more)
  {
    hide VerifyIn;
  }

  lemma {:induction false} ExecMgmtLost(s: State, id: nat, r: Req, qpairActive: bool, o: Outcome, n: nat)
    requires n < |s.ns| && Core(s) && FusedOk(s) && Fresh(s, id, r) && Mgmt(r)
    ensures LostAt(s, ExecStep(s, id, r, qpairActive, o), n, false)
  {
    CountedLost(s, id, r, n);
    if !IsAer(r) {
      CompletedLost(Counted(s, id, r), id, true, n);
    }
    DispatchMgmtLost(s, id, r, o, n);
    hide Core, FusedOk, Completed, DispatchMgmt, VerifyIn;
  }

  lemma {:induction false} ZcopyEndLost(s: State, id: nat, n: nat)
    requires n < |s.ns| && id in s.flight
    ensures LostAt(s, s.(flight := s.flight[id := s.flight[id].(phase := EndPending)]), n, false)
  {
    VerifyDrop(s.flight, id, n + 1);
    VerifyPut(s.flight, id, s.flight[id].(phase := EndPending), n + 1);
    hide VerifyIn;
  }

  lemma {:induction false} RetryLost(s: State, id: nat, o: Outcome, n: nat)
    requires n < |s.ns| && Inv(s) && Enabled(s, Retry(id, o))
    ensures LostAt(s, Step(s, Retry(id, o)), n, false)
  {
    WokenKeeps(s, id);
    VerifyDrop(s.flight, id, n + 1);
    var t := s.(flight := s.flight - {id});
    DispatchMgmtLost(t, id, s.flight[id].(waiting := false), o, n);
    hide Core, FusedOk, QueueOk, VerifyIn, DispatchMgmt;
  }

  /** In every step a namespace's leak and the I/Os with opcode 0x0c in flight to it grow
      together by the one that is admitted, if any: an admitted one stays in flight or has
      leaked its count, however it ended. Leaks never shrink. */
  lemma {:induction false} IoLeakIs(s: State, e: Event, n: nat)
    requires Inv(s) && Enabled(s, e) && n < |s.ns|
    ensures LostAt(s, Step(s, e), n, AdmitsVerify(s, e, n))
  {
    match e {
      case Exec(id, r, qpairActive, o) => ExecLost(s, id, r, qpairActive, o, n);
      case Release(qpairActive, o) =>
        PopKeeps(s);
        ExecLost(s.(queued := s.queued[1..]), s.queued[0].0, s.queued[0].1, qpairActive, o, n);
      case Complete(id, error) =>
        assert WfReq(s, s.flight[id]);
        CompletedLost(s, id, error, n);
      case ExecFabrics(id, r, o) => DispatchMgmtLost(s, id, r, o, n);
      case Retry(id, o) => RetryLost(s, id, o, n);
      case ZcopyEnd(id) => ZcopyEndLost(s, id, n);
      case _ =>
    }
  }

  lemma {:induction false} ExecLeaks(s: State, id: nat, r: Req, qpairActive: bool, o: Outcome)
    requires Core(s) && FusedOk(s) && Fresh(s, id, r)
    ensures ExecStep(s, id, r, qpairActive, o).mgmtLeak == s.mgmtLeak + (if LeakyAer(s, r, qpairActive) then 1 else 0)
  {
    if Mgmt(r) {
      if !IsAer(r) {
        CountedKeeps(s, id, r);
        CompletedKeeps(Counted(s, id, r), id, true);
        hide Core, Completed;
      }
    } else if NsidValid(s, r) {
      CountedKeeps(s, id, r);
      var s1 := Counted(s, id, r);
      CompletedKeepsFused(s1, id, true);
      DispatchIoKeeps(s1, id, o);
      hide Core, FusedOk, NsBusy, Completed, DispatchIo;
    }
  }

  /** The management counter leaks exactly when an asynchronous event request is admitted on
      a queue pair that is not active; it is then counted but never given back. */
  lemma {:induction false} MgmtLeaksIff(s: State, e: Event)
    requires Inv(s) && Enabled(s, e)
    ensures Step(s, e).mgmtLeak == s.mgmtLeak + (if LeaksMgmt(s, e) then 1 else 0)
  {
    match e {
      case Exec(id, r, qpairActive, o) => ExecLeaks(s, id, r, qpairActive, o);
      case Release(qpairActive, o) =>
        PopKeeps(s);
        ExecLeaks(s.(queued := s.queued[1..]), s.queued[0].0, s.queued[0].1, qpairActive, o);
      case Complete(id, error) => CompletedKeeps(s, id, error);
      case ExecFabrics(id, r, o) => DispatchLeaksNothing(s, id, r, o);
      case Retry(id, o) =>
        WokenKeeps(s, id);
        DispatchLeaksNothing(s.(flight := s.flight - {id}), id, s.flight[id].(waiting := false), o);
      case _ =>
    }
  }

  lemma {:induction false} DispatchLeaksNothing(s: State, id: nat, r: Req, o: Outcome)
    requires Core(s) && FusedOk(s) && Fresh(s, id, r) && Mgmt(r)
    ensures DispatchMgmt(s, id, r, o).mgmtLeak == s.mgmtLeak
  {
    if !IsAer(r) {
      CountedKeeps(s, id, r);
      CompletedKeeps(Counted(s, id, r), id, true);
      hide Core, Completed;
    }
  }

  // Over runs.

  /** How many I/Os with opcode 0x0c a run admits to namespace `n`. */
  ghost function VerifyAdmitted(s: State, es: seq<Event>, n: nat): nat
    requires Admissible(s, es) && Inv(s) && n < |s.ns|
    decreases |es|
  {
    if es == [] then 0
    else
      StepIsOk(s, es[0]);
      (if AdmitsVerify(s, es[0], n) then 1 else 0) + VerifyAdmitted(Step(s, es[0]), es[1..], n)
  }

  /** How many asynchronous event requests a run admits on inactive queue pairs. */
  ghost function AersLeaked(s: State, es: seq<Event>): nat
    requires Admissible(s, es)
    decreases |es|
  {
    if es == [] then 0 else (if LeaksMgmt(s, es[0]) then 1 else 0) + AersLeaked(Step(s, es[0]), es[1..])
  }

  lemma {:induction false} RunLost(s: State, es: seq<Event>, n: nat)
    requires Inv(s) && Admissible(s, es) && n < |s.ns|
    ensures |Run(s, es).ns| == |s.ns| && Run(s, es).ns[n].leak >= s.ns[n].leak
    ensures Lost(Run(s, es), n) == Lost(s, n) + VerifyAdmitted(s, es, n)
    decreases |es|
  {
    if es != [] {
      StepIsOk(s, es[0]);
      IoLeakIs(s, es[0], n);
      hide Step, Inv, Lost, AdmitsVerify;
      RunLost(Step(s, es[0]), es[1..], n);
    }
  }

  lemma {:induction false} RunLeaks(s: State, es: seq<Event>)
    requires Inv(s) && Admissible(s, es)
    ensures Run(s, es).mgmtLeak == s.mgmtLeak + AersLeaked(s, es)
    decreases |es|
  {
    if es != [] {
      StepIsOk(s, es[0]);
      MgmtLeaksIff(s, es[0]);
      hide Step, Inv, LeaksMgmt;
      RunLeaks(Step(s, es[0]), es[1..]);
    }
  }

  /** Over every run of a fresh group: the management counter is the number of requests it
      counts plus the asynchronous event requests admitted on inactive queue pairs; each
      namespace's counter is the number of its I/Os in flight plus those of opcode 0x0c that
      were admitted and have ended; and each pause has had its one completion unless it is
      still owed. */
  lemma {:induction false} CountersExact(s: State, es: seq<Event>, n: nat)
    requires Initial(s) && Admissible(s, es) && n < |s.ns|
    ensures Inv(s) && |Run(s, es).ns| == |s.ns|
    ensures var t := Run(s, es);
            && t.mgmt == |MgmtIn(t.flight)| + AersLeaked(s, es)
            && t.ns[n].io + |VerifyIn(t.flight, n + 1)| == |IoIn(t.flight, n + 1)| + VerifyAdmitted(s, es, n)
            && t.ns[n].leak + |VerifyIn(t.flight, n + 1)| == VerifyAdmitted(s, es, n)
            && t.requested == t.signalled + (if t.callback then 1 else 0)
  {
    InitialInv(s);
    assert VerifyIn(s.flight, n + 1) == {};
    RunKeepsInv(s, es);
    RunLost(s, es, n);
    RunLeaks(s, es);
    hide Run, MgmtIn, IoIn, VerifyIn, FlightOk, FusedOk, QueueOk;
  }

  // When a pause can still complete.

  /** An I/O to such a namespace still goes through the fused-command logic of its queue pair. */
  predicate Open(x: Ns) {
    !x.pausing && x.channel
  }

  predicate Escape(s: State) {
    exists m :: 0 <= m < |s.ns| && Open(s.ns[m])
  }

  /** The first command held on `q` goes to a pausing namespace. */
  predicate HeldFast(s: State, q: nat)
    requires FusedOk(s)
  {
    q in s.firstFused && s.ns[s.flight[s.firstFused[q]].nsid - 1].pausing
  }

  /** Nothing the pause waits for is leaked or going to leak, and any first command it waits
      for can still be driven out. */
  ghost predicate Completable(s: State)
    requires FusedOk(s)
  {
    && s.mgmtLeak == 0 && (forall n :: 0 <= n < |s.ns| && s.ns[n].pausing ==> Lost(s, n) == 0)
    && ((exists q :: HeldFast(s, q)) ==> Escape(s))
  }

  lemma {:induction false} LostMeansBusy(s: State, n: nat)
    requires Inv(s) && n < |s.ns| && Lost(s, n) > 0
    ensures s.ns[n].io > 0
  {
    assert forall id :: id in s.flight ==> WfReq(s, s.flight[id]);
    SubsetSize(VerifyIn(s.flight, n + 1), IoIn(s.flight, n + 1));
  }

  lemma {:induction false} HeldMeansBusy(s: State, q: nat)
    requires Inv(s) && HeldFast(s, q)
    ensures NsBusy(s.ns)
  {
    var id := s.firstFused[q];
    var n := s.flight[id].nsid - 1;
    assert WfReq(s, s.flight[id]);
    assert id in IoIn(s.flight, n + 1);
    assert s.ns[n].pausing && s.ns[n].io > 0;
  }

  /** While a pause waits and every namespace with a channel is pausing, held first commands
      stay held. */
  lemma {:induction false} HeldStays(s: State, e: Event, q: nat)
    requires Inv(s) && Enabled(s, e) && s.state == Pausing && !Escape(s) && HeldFast(s, q)
    ensures FusedOk(Step(s, e)) && HeldFast(Step(s, e), q) && !Escape(Step(s, e))
  {
    StepIsOk(s, e);
    SameChannels(s, e);
    FirstsStay(s, e, q);
    hide Step, Books, Live, FlightOk;
  }

  lemma {:induction false} SameChannels(s: State, e: Event)
    requires Inv(s) && Enabled(s, e)
    ensures |Step(s, e).ns| == |s.ns| && forall n :: 0 <= n < |s.ns| ==> Step(s, e).ns[n].channel == s.ns[n].channel
  {
    StepIsOk(s, e);
    forall n | 0 <= n < |s.ns| ensures Step(s, e).ns[n].channel == s.ns[n].channel {
      IoLeakIs(s, e, n);
    }
  }

  ghost predicate FirstStays(s: State, s': State, q: nat)
    requires q in s.firstFused && s.firstFused[q] in s.flight
  {
    var id := s.firstFused[q];
    s'.firstFused == s.firstFused && id in s'.flight && s'.flight[id].nsid == s.flight[id].nsid
  }

  lemma {:induction false} FirstsStay(s: State, e: Event, q: nat)
    requires Inv(s) && Enabled(s, e) && s.state == Pausing && !Escape(s) && HeldFast(s, q)
    ensures FirstStays(s, Step(s, e), q)
  {
    assert WfReq(s, s.flight[s.firstFused[q]]);
    match e {
      case Exec(id, r, qpairActive, o) => ExecFirstsStay(s, id, r, qpairActive, o, q);
      case Retry(id, _) =>
        WokenKeeps(s, id);
        hide Core, FusedOk, QueueOk;
      case _ => OtherFirstsStay(s, e, q);
    }
  }

  lemma {:induction false} OtherFirstsStay(s: State, e: Event, q: nat)
    requires Inv(s) && Enabled(s, e) && s.state == Pausing && HeldFast(s, q) && !e.Exec? && !e.Retry?
    ensures FirstStays(s, Step(s, e), q)
  {
    hide Core, QueueOk, NsBusy;
  }

  lemma {:induction false} ExecFirstsStay(s: State, id: nat, r: Req, qpairActive: bool, o: Outcome, q: nat)
    requires FusedOk(s) && Fresh(s, id, r) && s.state == Pausing && !Escape(s) && HeldFast(s, q)
    ensures FirstStays(s, ExecStep(s, id, r, qpairActive, o), q)
  {
    assert !Mgmt(r) && NsidValid(s, r) ==> !Open(s.ns[r.nsid - 1]);
    hide DispatchIo, DispatchMgmt, NsBusy;
  }

  lemma {:induction false} StepStaysBlocked(s: State, e: Event)
    requires Inv(s) && Enabled(s, e) && s.state == Pausing && !Completable(s)
    ensures Inv(Step(s, e)) && Step(s, e).state == Pausing && !Completable(Step(s, e))
  {
    StepIsOk(s, e);
    var s' := Step(s, e);
    MgmtLeaksIff(s, e);
    if s.mgmtLeak > 0 {
      assert !Idle(s');
    } else if n :| 0 <= n < |s.ns| && s.ns[n].pausing && Lost(s, n) > 0 {
      IoLeakIs(s, e, n);
      LostMeansBusy(s', n);
      assert s'.ns[n].pausing && s'.ns[n].io > 0;
    } else {
      var q :| HeldFast(s, q);
      HeldStays(s, e, q);
      HeldMeansBusy(s', q);
    }
    hide Step, Books, Live, FlightOk, FusedOk, QueueOk;
  }

  lemma {:induction false} BlockedForever(s: State, es: seq<Event>)
    requires Inv(s) && Admissible(s, es) && s.state == Pausing && !Completable(s)
    ensures Run(s, es).state == Pausing
    decreases |es|
  {
    if es != [] {
      StepStaysBlocked(s, es[0]);
      hide Step, Inv, Completable;
      BlockedForever(Step(s, es[0]), es[1..]);
    }
  }

  /** The requests in flight that an unfinished pause waits for. */
  function Awaited(s: State): set<nat> {
    set id | id in s.flight && s.flight[id].counted
             && (Mgmt(s.flight[id]) || (NsidValid(s, s.flight[id]) && s.ns[s.flight[id].nsid - 1].pausing))
  }

  lemma {:induction false} SomeAwaited(s: State) returns (id: nat)
    requires Inv(s) && s.state == Pausing && Completable(s)
    ensures id in Awaited(s)
  {
    if s.mgmt > 0 {
      id :| id in MgmtIn(s.flight);
    } else {
      var n :| 0 <= n < |s.ns| && s.ns[n].pausing && s.ns[n].io > 0;
      assert Lost(s, n) == 0;
      id :| id in IoIn(s.flight, n + 1);
    }
  }

  /** One awaited request has gone, and nothing else that matters to the pause has changed. */
  ghost predicate OneGone(s: State, s': State, id: nat) {
    && Inv(s') && (s'.state == Paused || s'.state == Pausing) && id in s.flight && s'.flight == s.flight - {id} && |s'.ns| == |s.ns|
    && (forall q :: q in s'.firstFused ==> q in s.firstFused && s'.firstFused[q] == s.firstFused[q])
    && s'.mgmtLeak == s.mgmtLeak
    && forall n :: 0 <= n < |s.ns| ==>
         s'.ns[n].pausing == s.ns[n].pausing && s'.ns[n].channel == s.ns[n].channel && Lost(s', n) == Lost(s, n)
  }

  lemma {:induction false} OneGoneAwaited(s: State, s': State, id: nat)
    requires OneGone(s, s', id) && id in Awaited(s)
    ensures |Awaited(s')| < |Awaited(s)|
  {
    hide Inv, Lost;
    assert Awaited(s') == Awaited(s) - {id};
    CardWithout(Awaited(s), id);
  }

  lemma {:induction false} OneGoneCompletable(s: State, s': State, id: nat)
    requires Inv(s) && Completable(s) && OneGone(s, s', id)
    ensures Completable(s')
  {
    assert FusedOk(s) && FusedOk(s');
    hide Inv, Lost;
    if q :| HeldFast(s', q) {
      assert HeldFast(s, q);
      var m :| 0 <= m < |s.ns| && Open(s.ns[m]);
      assert Open(s'.ns[m]);
    }
  }

  lemma {:induction false} ToOneGone(s: State, e: Event, id: nat)
    requires Inv(s) && Enabled(s, e) && s.state == Pausing && !LeaksMgmt(s, e)
    requires forall n :: 0 <= n < |s.ns| ==> !AdmitsVerify(s, e, n)
    requires id in s.flight && Step(s, e).flight == s.flight - {id}
    requires forall q :: q in Step(s, e).firstFused ==> q in s.firstFused && Step(s, e).firstFused[q] == s.firstFused[q]
    ensures OneGone(s, Step(s, e), id)
  {
    StepIsOk(s, e);
    MgmtLeaksIff(s, e);
    var s' := Step(s, e);
    forall n | 0 <= n < |s.ns| ensures s'.ns[n].channel == s.ns[n].channel && Lost(s', n) == Lost(s, n) {
      IoLeakIs(s, e, n);
    }
    hide Inv, Lost, Idle, Step, LeaksMgmt, AdmitsVerify;
  }

  /** An awaited request that is not a held first command can be completed. */
  lemma {:induction false} CompleteOne(s: State, id: nat)
    requires Inv(s) && s.state == Pausing && id in Awaited(s) && !IsHeldFirst(s, id) && s.flight[id].phase != Execute
    ensures Enabled(s, Complete(id, true)) && OneGone(s, Step(s, Complete(id, true)), id)
  {
    assert WfReq(s, s.flight[id]);
    hide Core, FusedOk, NsBusy, OneGone;
    ToOneGone(s, Complete(id, true), id);
  }

  /** A zero-copy I/O waiting for its end is ended first. */
  lemma {:induction false} ZcopyOne(s: State, id: nat)
    requires Inv(s) && s.state == Pausing && id in Awaited(s) && s.flight[id].phase == Execute && Completable(s)
    requires !IsHeldFirst(s, id)
    ensures Enabled(s, ZcopyEnd(id))
    ensures var s' := Step(s, ZcopyEnd(id));
            && Inv(s') && s'.state == Pausing && Completable(s') && Awaited(s') == Awaited(s)
            && s'.flight[id].phase == EndPending && !IsHeldFirst(s', id)
  {
    StepIsOk(s, ZcopyEnd(id));
    var s' := Step(s, ZcopyEnd(id));
    assert s' == s.(flight := s.flight[id := s.flight[id].(phase := EndPending)]);
    hide Core, QueueOk, Lost, NsBusy;
    ZcopyKeepsCompletable(s, s', id);
    hide FusedOk, Completable, Step;
  }

  lemma {:induction false} ZcopyKeepsCompletable(s: State, s': State, id: nat)
    requires FusedOk(s) && FusedOk(s') && Completable(s) && id in s.flight
    requires s' == s.(flight := s.flight[id := s.flight[id].(phase := EndPending)])
    ensures Completable(s')
  {
    forall n | 0 <= n < |s.ns| ensures Lost(s', n) == Lost(s, n) {
      ZcopyEndLost(s, id, n);
    }
    hide Lost;
    forall q | HeldFast(s', q) ensures HeldFast(s, q) {}
  }

  lemma {:induction false} Above(t: set<nat>) returns (id: nat)
    ensures forall k :: k in t ==> k < id
  {
    if t == {} {
      id := 0;
    } else {
      var k :| k in t;
      id := Above(t - {k});
      assert forall j :: j in t ==> j == k || j in t - {k};
      id := if id > k then id else k + 1;
    }
  }

  lemma {:induction false} FreshId(s: State) returns (id: nat)
    ensures id !in s.flight && forall k :: 0 <= k < |s.queued| ==> s.queued[k].0 != id
  {
    var queued := set k | 0 <= k < |s.queued| :: s.queued[k].0;
    id := Above(s.flight.Keys + queued);
    forall k | 0 <= k < |s.queued| ensures s.queued[k].0 != id {
      assert s.queued[k].0 in s.flight.Keys + queued;
    }
  }

  /** A plain read of namespace `n` on queue pair `q`. */
  function Plain(q: nat, n: nat): Req {
    Req(q, false, 0x02, false, n + 1, Single, NoZcopy, false, false)
  }

  lemma {:induction false} PlainIs(s: State, nid: nat, q: nat, m: nat)
    requires Core(s) && FusedOk(s) && nid !in s.flight && m < |s.ns| && Open(s.ns[m])
    ensures var s1 := Counted(s, nid, Plain(q, m));
            && Core(s1) && FusedOk(s1) && nid in AbortFirst(s1, q).flight
            && NsidValid(AbortFirst(s1, q), AbortFirst(s1, q).flight[nid])
            && ExecStep(s, nid, Plain(q, m), true, Done(false)) == Completed(AbortFirst(s1, q), nid, false)
  {
    CountedKeeps(s, nid, Plain(q, m));
    AbortFirstKeeps(Counted(s, nid, Plain(q, m)), q);
    hide Core, FusedOk, AbortFirst, Completed, NsBusy;
  }

  /** What such a read does to the first command held on its queue pair. */
  lemma {:induction false} PlainAborts(s: State, nid: nat, q: nat, m: nat)
    requires Core(s) && FusedOk(s) && nid !in s.flight && q in s.firstFused && m < |s.ns| && Open(s.ns[m])
    ensures var s' := ExecStep(s, nid, Plain(q, m), true, Done(false));
            && s'.flight == s.flight - {s.firstFused[q]} && s'.firstFused == s.firstFused - {q}
  {
    PlainIs(s, nid, q, m);
    var s1 := Counted(s, nid, Plain(q, m));
    AbortFirstKeeps(s1, q);
    var s2 := AbortFirst(s1, q);
    assert s.firstFused[q] in s.flight;
    hide Core, FusedOk, AbortFirst, NsBusy, ExecStep, Sound;
    assert s2.flight[nid] == s1.flight[nid];
    assert Completed(s2, nid, false).flight == s2.flight - {nid};
    assert s2.flight - {nid} == s.flight - {s.firstFused[q]};
  }

  /** A held first command can be driven out by an I/O to a namespace that is not pausing. */
  lemma {:induction false} AbortOne(s: State, nid: nat, q: nat, m: nat)
    requires Inv(s) && s.state == Pausing && q in s.firstFused && m < |s.ns| && Open(s.ns[m])
    requires nid !in s.flight && forall k :: 0 <= k < |s.queued| ==> s.queued[k].0 != nid
    ensures var e := Exec(nid, Plain(q, m), true, Done(false));
            Enabled(s, e) && OneGone(s, Step(s, e), s.firstFused[q])
  {
    var e := Exec(nid, Plain(q, m), true, Done(false));
    PlainAborts(s, nid, q, m);
    hide Core, FusedOk, NsBusy, OneGone, ExecStep;
    ToOneGone(s, e, s.firstFused[q]);
  }

  /** Everything a completable pause waits for can be brought to its end. */
  lemma {:induction false} Drain(s: State) returns (es: seq<Event>)
    requires Inv(s) && s.state == Pausing && Completable(s)
    ensures Admissible(s, es) && Run(s, es).state == Paused
    decreases |Awaited(s)|
  {
    var id := SomeAwaited(s);
    if IsHeldFirst(s, id) {
      var q :| q in s.firstFused && s.firstFused[q] == id;
      var m := EscapeFor(s, q);
      var nid := FreshId(s);
      var e := Exec(nid, Plain(q, m), true, Done(false));
      AbortOne(s, nid, q, m);
      es := DrainOn(s, e, id);
    } else if s.flight[id].phase == Execute {
      ZcopyOne(s, id);
      var s1 := Step(s, ZcopyEnd(id));
      CompleteOne(s1, id);
      var rest := DrainOn(s1, Complete(id, true), id);
      es := [ZcopyEnd(id)] + rest;
      RunOne(s, ZcopyEnd(id), rest);
    } else {
      CompleteOne(s, id);
      es := DrainOn(s, Complete(id, true), id);
    }
  }

  lemma {:induction false} DrainOn(s: State, e: Event, id: nat) returns (es: seq<Event>)
    requires Inv(s) && Enabled(s, e) && Completable(s) && OneGone(s, Step(s, e), id) && id in Awaited(s)
    ensures Admissible(s, es) && Run(s, es).state == Paused
    decreases |Awaited(s)|, 0
  {
    var s' := Step(s, e);
    OneGoneAwaited(s, s', id);
    OneGoneCompletable(s, s', id);
    hide Step, Awaited, Completable;
    var rest := [];
    if s'.state == Pausing {
      rest := Drain(s');
    }
    RunOne(s, e, rest);
    es := [e] + rest;
  }

  lemma {:induction false} RunOne(s: State, e: Event, es: seq<Event>)
    requires Inv(s) && Enabled(s, e) && Admissible(Step(s, e), es)
    ensures Admissible(s, [e] + es) && Run(s, [e] + es) == Run(Step(s, e), es)
  {
    assert ([e] + es)[1..] == es;
  }

  lemma {:induction false} EscapeFor(s: State, q: nat) returns (m: nat)
    requires Inv(s) && s.state == Pausing && Completable(s) && q in s.firstFused && s.firstFused[q] in Awaited(s)
    ensures m < |s.ns| && Open(s.ns[m])
  {
    assert HeldFast(s, q);
    m :| 0 <= m < |s.ns| && Open(s.ns[m]);
  }

  /** Some run from here on reaches the end of the pause. */
  ghost predicate CanComplete(s: State) {
    exists es :: Admissible(s, es) && Run(s, es).state == Paused
  }

  /** A pause that waits can still complete if and only if no count it waits for is leaked or
      going to leak, and either no first of two fused commands is held for a pausing
      namespace or some namespace with a channel is not pausing. */
  lemma {:induction false} PauseCompletesIff(s: State)
    requires Inv(s) && s.state == Pausing
    ensures CanComplete(s) <==> Completable(s)
  {
    if Completable(s) {
      var es := Drain(s);
    } else {
      forall es | Admissible(s, es) ensures Run(s, es).state != Paused {
        BlockedForever(s, es);
      }
    }
  }

  /** A pause of the whole subsystem completes, at once or later, if and only if no first of
      two fused commands is held and no count is leaked or going to leak. */
  lemma {:induction false} WholePauseCompletesIff(s: State, nsid: nat)
    requires Inv(s) && s.state == Active
    ensures var s' := Step(s, PauseGroup(nsid, true));
            && Inv(s')
            && (CanComplete(s') <==> s.firstFused == map[] && s.mgmtLeak == 0 && forall n :: 0 <= n < |s.ns| ==> Lost(s, n) == 0)
  {
    var s' := Step(s, PauseGroup(nsid, true));
    StepIsOk(s, PauseGroup(nsid, true));
    assert forall n :: 0 <= n < |s.ns| ==> s'.ns[n].pausing && Lost(s', n) == Lost(s, n);
    WholePauseCompletable(s, s');
    if s'.state == Pausing {
      PauseCompletesIff(s');
    } else {
      IdleIsCompletable(s');
      assert Admissible(s', []) && Run(s', []) == s';
    }
    hide Inv, Step, Lost, Completable, CanComplete;
  }

  lemma {:induction false} WholePauseCompletable(s: State, s': State)
    requires FusedOk(s) && FusedOk(s') && s'.firstFused == s.firstFused && s'.flight == s.flight && |s'.ns| == |s.ns|
    requires s'.mgmtLeak == s.mgmtLeak
    requires forall n :: 0 <= n < |s.ns| ==> s'.ns[n].pausing && Lost(s', n) == Lost(s, n)
    ensures Completable(s') <==> s.firstFused == map[] && s.mgmtLeak == 0 && forall n :: 0 <= n < |s.ns| ==> Lost(s, n) == 0
  {
    hide Lost;
    assert !Escape(s');
    if s.firstFused != map[] {
      var q :| q in s.firstFused;
      assert HeldFast(s', q);
    }
  }

  lemma {:induction false} IdleIsCompletable(s: State)
    requires Inv(s) && Idle(s)
    ensures Completable(s)
  {
    if n :| 0 <= n < |s.ns| && s.ns[n].pausing && Lost(s, n) > 0 {
      LostMeansBusy(s, n);
    }
    if q :| HeldFast(s, q) {
      HeldMeansBusy(s, q);
    }
  }

  // What each leak does, from a fresh group on.

  /** A leaked management count keeps the group from ever becoming paused again. */
  lemma {:induction false} LeakBlocksPause(s: State, es: seq<Event>)
    requires Inv(s) && Admissible(s, es) && s.mgmtLeak > 0 && s.state != Paused
    ensures Run(s, es).state != Paused && Run(s, es).mgmt > 0
    decreases |es|
  {
    if es != [] {
      StepIsOk(s, es[0]);
      var s' := Step(s, es[0]);
      assert s'.mgmt > 0;
      hide Step, Inv;
      LeakBlocksPause(s', es[1..]);
    }
  }

  /** A leaked count of a namespace keeps every pause that includes it from ever completing. */
  lemma {:induction false} NsLeakBlocksPause(s: State, nsid: nat, all: bool, n: nat, es: seq<Event>)
    requires Inv(s) && s.state == Active && n < |s.ns| && s.ns[n].leak > 0 && (all || nsid == n + 1)
    requires Admissible(Step(s, PauseGroup(nsid, all)), es)
    ensures Run(Step(s, PauseGroup(nsid, all)), es).state == Pausing
  {
    var s' := Step(s, PauseGroup(nsid, all));
    StepIsOk(s, PauseGroup(nsid, all));
    assert s'.ns[n].pausing && s'.ns[n].leak > 0;
    LostMeansBusy(s', n);
    assert s'.state == Pausing;
    BlockedForever(s', es);
  }

  /** So does a held first command for a pause of the whole subsystem: the second one is
      queued behind the pause, which waits for the first. */
  lemma {:induction false} HeldFirstBlocksPause(s: State, q: nat, es: seq<Event>)
    requires Inv(s) && s.state == Active && q in s.firstFused
    requires Admissible(Step(s, PauseGroup(0, true)), es)
    ensures Run(Step(s, PauseGroup(0, true)), es).state == Pausing
  {
    var s' := Step(s, PauseGroup(0, true));
    StepIsOk(s, PauseGroup(0, true));
    assert HeldFast(s', q);
    HeldMeansBusy(s', q);
    BlockedForever(s', es);
  }

  /** An asynchronous event request on an inactive queue pair, from a fresh group on. */
  lemma {:induction false} AerRunLeaks(s: State)
    requires Initial(s)
    ensures var es := [Exec(0, Req(0, true, OPC_ASYNC_EVENT_REQUEST, false, 0, Single, NoZcopy, false, false), false, Async)];
            Admissible(s, es) && Run(s, es).state == Active && Run(s, es).mgmtLeak == 1
  {
    InitialInv(s);
    var e := Exec(0, Req(0, true, OPC_ASYNC_EVENT_REQUEST, false, 0, Single, NoZcopy, false, false), false, Async);
    assert Admissible(Step(s, e), []) && Run(Step(s, e), []) == Step(s, e);
    RunOne(s, e, []);
  }

  /** A Verify to namespace 1 that completes, with success or not, at once or later. */
  lemma {:induction false} VerifyRunLeaks(s: State, q: nat, error: bool)
    requires Initial(s) && |s.ns| > 0 && s.ns[0].channel
    ensures var r := Req(q, false, OPC_ASYNC_EVENT_REQUEST, false, 1, Single, NoZcopy, false, false);
            && Admissible(s, [Exec(0, r, true, Async), Complete(0, error)])
            && Admissible(s, [Exec(0, r, true, EarlyFail)])
            && var t, u := Run(s, [Exec(0, r, true, Async), Complete(0, error)]), Run(s, [Exec(0, r, true, EarlyFail)]);
               && t.state == Active && |t.ns| > 0 && t.ns[0].leak == 1
               && u.state == Active && |u.ns| > 0 && u.ns[0].leak == 1
  {
    InitialInv(s);
    var r := Req(q, false, OPC_ASYNC_EVENT_REQUEST, false, 1, Single, NoZcopy, false, false);
    var e, d := Exec(0, r, true, Async), Complete(0, error);
    StepIsOk(s, e);
    var s1 := Step(s, e);
    var s2 := Step(s1, d);
    assert Admissible(s2, []) && Run(s2, []) == s2;
    RunOne(s1, d, []);
    RunOne(s, e, [d]);
    assert [e] + [d] == [e, d];
    var f := Exec(0, r, true, EarlyFail);
    assert Admissible(Step(s, f), []) && Run(Step(s, f), []) == Step(s, f);
    RunOne(s, f, []);
  }

  /** A first compare whose second has not come. */
  lemma {:induction false} FirstRunHolds(s: State, q: nat)
    requires Initial(s) && |s.ns| > 0 && s.ns[0].channel
    ensures var es := [Exec(0, Req(q, false, OPC_COMPARE, false, 1, First, NoZcopy, false, false), true, Async)];
            Admissible(s, es) && Run(s, es).state == Active && q in Run(s, es).firstFused
  {
    InitialInv(s);
    var e := Exec(0, Req(q, false, OPC_COMPARE, false, 1, First, NoZcopy, false, false), true, Async);
    assert Admissible(Step(s, e), []) && Run(Step(s, e), []) == Step(s, e);
    RunOne(s, e, []);
  }
}
