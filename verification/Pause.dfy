/** Outstanding-request counters and subsystem pause, across queueing, connect retry, fused
    pairs and zero-copy phases (nvmf/ctrlr.c:906-991, 3526-3534, 4024-4102, 4150-4165,
    4203-4242, 4303-4562; nvmf/nvmf.c:1659-1775). Requests before a connection has a
    controller have no poll-group entry and are not counted at all. */
module Pause {
  import opened Collections

  const OPC_ASYNC_EVENT_REQUEST := 0x0c // also the I/O opcode Verify
  const OPC_FABRIC := 0x7f
  const OPC_WRITE := 0x01
  const OPC_COMPARE := 0x05

  datatype Fuse = Single | First | Second | InvalidFuse

  datatype Phase = NoZcopy | Init | Execute | EndPending

  /** A request; `waiting`: a connect to be tried again later; `counted`: it is included in
      one of the counters now. */
  datatype Req = Req(qpair: nat, adminQueue: bool, opcode: nat, connect: bool, nsid: nat,
                     fuse: Fuse, phase: Phase, waiting: bool, counted: bool)

  datatype GroupState = Active | Pausing | Paused

  /** `leak` counts the requests that ended without giving their count back. */
  datatype Ns = Ns(pausing: bool, channel: bool, io: int, leak: nat)

  /** One `spdk_nvmf_subsystem_poll_group`. `flight`: the requests on the queue pairs'
      `outstanding` lists; `firstFused`: each queue pair's `first_fused_req`; `callback`:
      a pause completion is owed; `requested` and `signalled` count pauses and their completions. */
  datatype State = State(
    state: GroupState, mgmt: int, mgmtLeak: nat, ns: seq<Ns>, flight: map<nat, Req>,
    firstFused: map<nat, nat>, queued: seq<(nat, Req)>, callback: bool, requested: nat, signalled: nat)

  predicate Mgmt(r: Req) {
    r.opcode == OPC_FABRIC || r.adminQueue
  }

  /** The `is_aer` of `_nvmf_request_complete`: decided by the opcode alone. */
  predicate IsAer(r: Req) {
    r.opcode == OPC_ASYNC_EVENT_REQUEST
  }

  predicate NsidValid(s: State, r: Req) {
    1 <= r.nsid <= |s.ns|
  }

  /** What `process_*_cmd` does with an admitted request. */
  datatype Outcome = EarlyFail | Done(error: bool) | Async | RetryConnect

  datatype Event =
    | Exec(id: nat, r: Req, qpairActive: bool, o: Outcome)
    | ExecFabrics(id: nat, r: Req, o: Outcome)
    | Release(qpairActive: bool, o: Outcome)
    | Retry(id: nat, o: Outcome)
    | Complete(id: nat, error: bool)
    | ZcopyEnd(id: nat)
    | PauseGroup(nsid: nat, all: bool)
    | Resume

  // Pieces of steps.

  predicate NsBusy(ns: seq<Ns>) {
    exists n :: 0 <= n < |ns| && ns[n].pausing && ns[n].io > 0
  }

  /** The check at the end of every completion. */
  function CheckPaused(s: State): State {
    if s.state == Pausing && s.mgmt == 0 && !NsBusy(s.ns)
    then s.(state := Paused, callback := false, signalled := s.signalled + 1) else s
  }

  function AddIo(ns: seq<Ns>, nsid: nat, d: int): seq<Ns>
    requires 1 <= nsid <= |ns|
  {
    ns[nsid - 1 := ns[nsid - 1].(io := ns[nsid - 1].io + d)]
  }

  function Counted(s: State, id: nat, r: Req): State
    requires !Mgmt(r) ==> NsidValid(s, r)
  {
    var flight := s.flight[id := r.(counted := true, waiting := false)];
    if Mgmt(r) then s.(flight := flight, mgmt := s.mgmt + 1)
    else s.(flight := flight, ns := AddIo(s.ns, r.nsid, 1))
  }

  function Held(s: State, id: nat, r: Req, waiting: bool): State {
    s.(flight := s.flight[id := r.(counted := false, waiting := waiting)])
  }

  predicate Ends(r: Req, error: bool) {
    r.phase == NoZcopy || r.phase == EndPending || (r.phase == Init && error)
  }

  function Leak(s: State, r: Req): State
    requires !Mgmt(r) ==> NsidValid(s, r)
  {
    if !r.counted then s
    else if Mgmt(r) then s.(mgmtLeak := s.mgmtLeak + 1)
    else s.(ns := s.ns[r.nsid - 1 := s.ns[r.nsid - 1].(leak := s.ns[r.nsid - 1].leak + 1)])
  }

  /** `_nvmf_request_complete` for a request of a connected queue pair. */
  function Completed(s: State, id: nat, error: bool): State
    requires id in s.flight && (!Mgmt(s.flight[id]) ==> NsidValid(s, s.flight[id]))
  {
    var r := s.flight[id];
    if !Ends(r, error) then CheckPaused(s.(flight := s.flight[id := r.(phase := Execute)]))
    else
      var s' := s.(flight := s.flight - {id});
      if IsAer(r) then Leak(s', r)
      else if Mgmt(r) then CheckPaused(s'.(mgmt := s.mgmt - 1))
      else CheckPaused(s'.(ns := AddIo(s.ns, r.nsid, -1)))
  }

  // Dispatching an admitted request.

  predicate IsHeldFirst(s: State, id: nat) {
    exists q :: q in s.firstFused && s.firstFused[q] == id
  }

  function DispatchMgmt(s: State, id: nat, r: Req, o: Outcome): State
    requires Mgmt(r)
  {
    if IsAer(r) then (if o.Done? then s else Held(s, id, r, false))
    else if o.RetryConnect? && r.connect then Held(s, id, r, true)
    else if o.Done? || o.EarlyFail? then Completed(Counted(s, id, r), id, true)
    else Counted(s, id, r)
  }

  /** A queue pair's held first command, if it has one, is completed with an error. */
  function AbortFirst(s: State, q: nat): State
    requires FusedOk(s)
  {
    if q !in s.firstFused then s
    else Completed(s, s.firstFused[q], true).(firstFused := s.firstFused - {q})
  }

  /** `nvmf_ctrlr_process_io_cmd` and the completion of what it finished; `s` has the
      request in flight. */
  function DispatchIo(s: State, id: nat, o: Outcome): State
    requires FusedOk(s) && id in s.flight && !Mgmt(s.flight[id]) && NsidValid(s, s.flight[id])
    requires !IsHeldFirst(s, id)
  {
    var r := s.flight[id];
    var q := r.qpair;
    if o.EarlyFail? then Completed(s, id, true)
    else match r.fuse
      case InvalidFuse => Completed(s, id, true)
      case First =>
        if q !in s.firstFused && r.opcode != OPC_COMPARE then Completed(s, id, true)
        else AbortFirst(s, q).(firstFused := s.firstFused[q := id])
      case Second =>
        if q !in s.firstFused then Completed(s, id, true)
        else if r.opcode != OPC_WRITE || o.Done? then Completed(AbortFirst(s, q), id, true)
        else s.(firstFused := s.firstFused - {q})
      case Single =>
        var s' := AbortFirst(s, q);
        if o.Done? then Completed(s', id, o.error) else s'
  }

  /** `spdk_nvmf_request_exec`. */
  function ExecStep(s: State, id: nat, r: Req, qpairActive: bool, o: Outcome): State
    requires FusedOk(s) && id !in s.flight
  {
    if Mgmt(r) then
      if s.state != Active then s.(queued := s.queued + [(id, r)])
      else if !qpairActive then
        if IsAer(r) then s.(mgmt := s.mgmt + 1, mgmtLeak := s.mgmtLeak + 1)
        else Completed(Counted(s, id, r), id, true)
      else DispatchMgmt(s, id, r, o)
    else if !NsidValid(s, r) then (if IsAer(r) then s else CheckPaused(s))
    else if !s.ns[r.nsid - 1].channel then Completed(Counted(s, id, r), id, true)
    else if s.ns[r.nsid - 1].pausing then s.(queued := s.queued + [(id, r)])
    else if !qpairActive then Completed(Counted(s, id, r), id, true)
    else DispatchIo(Counted(s, id, r), id, o)
  }

  function SetPausing(ns: seq<Ns>, pausing: bool): (r: seq<Ns>)
    ensures |r| == |ns| && forall n :: 0 <= n < |ns| ==> r[n] == ns[n].(pausing := pausing)
  {
    seq(|ns|, i requires 0 <= i < |ns| => ns[i].(pausing := pausing))
  }

  /** `nvmf_poll_group_pause_subsystem`. */
  function PauseStep(s: State, nsid: nat, all: bool): State {
    if s.state == Paused then s.(requested := s.requested + 1, signalled := s.signalled + 1)
    else
      var ns := if all then SetPausing(s.ns, true)
                else if 1 <= nsid <= |s.ns| then s.ns[nsid - 1 := s.ns[nsid - 1].(pausing := true)]
                else s.ns;
      var busy := s.mgmt > 0 || (if all then NsBusy(ns) else 1 <= nsid <= |ns| && ns[nsid - 1].io > 0);
      if busy then s.(state := Pausing, ns := ns, requested := s.requested + 1, callback := true)
      else s.(state := Paused, ns := ns, requested := s.requested + 1, signalled := s.signalled + 1)
  }

  function ResumeStep(s: State): State {
    if s.state == Active then s
    else s.(state := Active, ns := SetPausing(s.ns, false))
  }

  ghost predicate Fresh(s: State, id: nat, r: Req) {
    && id !in s.flight && !r.waiting && !r.counted
    && (r.phase == NoZcopy || (r.phase == Init && !Mgmt(r) && !IsAer(r) && r.fuse.Single?))
    && (Mgmt(r) && IsAer(r) ==> r.adminQueue)
  }

  ghost predicate Enabled(s: State, e: Event) {
    match e
    case Exec(id, r, _, _) => Fresh(s, id, r) && forall k :: 0 <= k < |s.queued| ==> s.queued[k].0 != id
    case ExecFabrics(id, r, _) =>
      Fresh(s, id, r) && r.opcode == OPC_FABRIC && forall k :: 0 <= k < |s.queued| ==> s.queued[k].0 != id
    case Release(_, _) => s.queued != [] && s.state == Active
    case Retry(id, _) => id in s.flight && s.flight[id].waiting
    case Complete(id, _) => id in s.flight && !s.flight[id].waiting && !IsHeldFirst(s, id)
    case ZcopyEnd(id) => id in s.flight && s.flight[id].phase == Execute
    case PauseGroup(_, _) => s.state != Pausing
    case Resume => s.state != Pausing
  }

  function Step(s: State, e: Event): State
    requires Inv(s) && Enabled(s, e)
  {
    match e
    case Exec(id, r, qpairActive, o) => ExecStep(s, id, r, qpairActive, o)
    case ExecFabrics(id, r, o) => DispatchMgmt(s, id, r, o)
    case Release(qpairActive, o) =>
      ExecStep(s.(queued := s.queued[1..]), s.queued[0].0, s.queued[0].1, qpairActive, o)
    case Retry(id, o) =>
      if o.RetryConnect? then s else DispatchMgmt(s.(flight := s.flight - {id}), id, s.flight[id].(waiting := false), o)
    case Complete(id, error) => Completed(s, id, error)
    case ZcopyEnd(id) => s.(flight := s.flight[id := s.flight[id].(phase := EndPending)])
    case PauseGroup(nsid, all) => PauseStep(s, nsid, all)
    case Resume => ResumeStep(s)
  }

  // The invariant.

  predicate WfReq(s: State, r: Req) {
    && (r.waiting ==> Mgmt(r) && r.connect && !r.counted && !IsAer(r))
    && (Mgmt(r) ==> r.phase == NoZcopy && r.counted == (!IsAer(r) && !r.waiting))
    && (!Mgmt(r) ==> NsidValid(s, r) && r.counted && !r.waiting)
    && (r.phase != NoZcopy ==> !IsAer(r) && r.fuse.Single?)
  }

  /** A held first command is in flight on its queue pair. */
  predicate FusedOk(s: State) {
    forall q :: q in s.firstFused ==>
      && s.firstFused[q] in s.flight && s.flight[s.firstFused[q]].qpair == q
      && !Mgmt(s.flight[s.firstFused[q]]) && NsidValid(s, s.flight[s.firstFused[q]])
      && s.flight[s.firstFused[q]].phase == NoZcopy
  }

  function MgmtIn(m: map<nat, Req>): set<nat> {
    set id | id in m && Mgmt(m[id]) && m[id].counted
  }

  function IoIn(m: map<nat, Req>, nsid: nat): set<nat> {
    set id | id in m && !Mgmt(m[id]) && m[id].counted && m[id].nsid == nsid
  }

  /** The counters are the admitted, uncompleted requests plus what was leaked. */
  ghost predicate Books(s: State) {
    && s.mgmt == |MgmtIn(s.flight)| + s.mgmtLeak
    && forall n :: 0 <= n < |s.ns| ==> s.ns[n].io == |IoIn(s.flight, n + 1)| + s.ns[n].leak
  }

  /** An unfinished pause waits for something that is still counted; every pause gets one
      completion. */
  ghost predicate Live(s: State) {
    (s.state == Pausing ==> s.mgmt > 0 || NsBusy(s.ns)) && Owed(s)
  }

  ghost predicate Owed(s: State) {
    && s.callback == (s.state == Pausing) && s.requested == s.signalled + (if s.callback then 1 else 0)
    && (s.state == Active ==> forall n :: 0 <= n < |s.ns| ==> !s.ns[n].pausing)
  }

  ghost predicate FlightOk(s: State) {
    forall id :: id in s.flight ==> WfReq(s, s.flight[id])
  }

  ghost predicate QueueOk(s: State) {
    && (forall k :: 0 <= k < |s.queued| ==> Fresh(s, s.queued[k].0, s.queued[k].1))
    && (forall j, k :: 0 <= j < k < |s.queued| ==> s.queued[j].0 != s.queued[k].0)
  }

  ghost predicate Core(s: State) {
    Books(s) && Live(s) && FlightOk(s)
  }

  ghost predicate Inv(s: State) {
    Core(s) && FusedOk(s) && QueueOk(s)
  }

  // Counting.

  lemma {:induction false} MgmtPut(m: map<nat, Req>, id: nat, r: Req)
    ensures |MgmtIn(m[id := r])| == |MgmtIn(m - {id})| + (if Mgmt(r) && r.counted then 1 else 0)
  {
    CardWithout(MgmtIn(m[id := r]), id);
    assert MgmtIn(m[id := r]) - {id} == MgmtIn(m - {id}) by {
      assert forall k :: k != id ==> (k in MgmtIn(m[id := r]) <==> k in MgmtIn(m - {id}));
    }
  }

  lemma {:induction false} IoPut(m: map<nat, Req>, id: nat, r: Req, nsid: nat)
    ensures |IoIn(m[id := r], nsid)| == |IoIn(m - {id}, nsid)| + (if !Mgmt(r) && r.counted && r.nsid == nsid then 1 else 0)
  {
    CardWithout(IoIn(m[id := r], nsid), id);
    assert IoIn(m[id := r], nsid) - {id} == IoIn(m - {id}, nsid) by {
      assert forall k :: k != id ==> (k in IoIn(m[id := r], nsid) <==> k in IoIn(m - {id}, nsid));
    }
  }

  /** Books after replacing request `id`, the counters moving with it. */
  lemma {:induction false} BooksPut(s: State, s': State, id: nat, r: Req)
    requires Books(s) && s'.flight == s.flight[id := r] && |s'.ns| == |s.ns|
    requires var was := if id in s.flight then s.flight[id].counted else false;
             && s'.mgmt - s'.mgmtLeak == s.mgmt - s.mgmtLeak + (if Mgmt(r) && r.counted then 1 else 0)
                                         - (if was && Mgmt(s.flight[id]) then 1 else 0)
             && forall n :: 0 <= n < |s.ns| ==>
                  s'.ns[n].io - s'.ns[n].leak == s.ns[n].io - s.ns[n].leak
                    + (if !Mgmt(r) && r.counted && r.nsid == n + 1 then 1 else 0)
                    - (if was && !Mgmt(s.flight[id]) && s.flight[id].nsid == n + 1 then 1 else 0)
    ensures Books(s')
  {
    MgmtPut(s.flight, id, r);
    BooksWithout(s, id, -1);
    forall n | 0 <= n < |s'.ns| ensures s'.ns[n].io == |IoIn(s'.flight, n + 1)| + s'.ns[n].leak {
      IoPut(s.flight, id, r, n + 1);
      BooksWithout(s, id, n);
    }
  }

  lemma {:induction false} BooksWithout(s: State, id: nat, n: int)
    requires Books(s) && -1 <= n < |s.ns|
    ensures var was := if id in s.flight then s.flight[id].counted else false;
            && s.mgmt == |MgmtIn(s.flight - {id})| + s.mgmtLeak + (if was && Mgmt(s.flight[id]) then 1 else 0)
            && (n >= 0 ==> s.ns[n].io == |IoIn(s.flight - {id}, n + 1)| + s.ns[n].leak
                                         + (if was && !Mgmt(s.flight[id]) && s.flight[id].nsid == n + 1 then 1 else 0))
  {
    var m := s.flight;
    if id in m {
      assert m[id := m[id]] == m;
      MgmtPut(m, id, m[id]);
      if n >= 0 {
        IoPut(m, id, m[id], n + 1);
      }
    } else {
      assert m - {id} == m;
    }
  }

  lemma {:induction false} BooksDrop(s: State, s': State, id: nat)
    requires Books(s) && id in s.flight && s'.flight == s.flight - {id} && |s'.ns| == |s.ns|
    requires var r := s.flight[id];
             && s'.mgmt - s'.mgmtLeak == s.mgmt - s.mgmtLeak - (if r.counted && Mgmt(r) then 1 else 0)
             && forall n :: 0 <= n < |s.ns| ==>
                  s'.ns[n].io - s'.ns[n].leak == s.ns[n].io - s.ns[n].leak
                    - (if r.counted && !Mgmt(r) && r.nsid == n + 1 then 1 else 0)
    ensures Books(s')
  {
    BooksWithout(s, id, -1);
    forall n | 0 <= n < |s'.ns| ensures s'.ns[n].io == |IoIn(s'.flight, n + 1)| + s'.ns[n].leak {
      BooksWithout(s, id, n);
    }
  }

  // Pieces keep the invariant.

  /** Nothing is counted that a pause waits for. */
  predicate Idle(s: State) {
    s.mgmt == 0 && !NsBusy(s.ns)
  }

  /** A piece of a step can only end a pause when it is due, and never un-does that. */
  ghost predicate Sound(s: State, s': State) {
    && s'.requested == s.requested && |s'.ns| == |s.ns| && s'.queued == s.queued && s'.mgmtLeak == s.mgmtLeak
    && (forall n :: 0 <= n < |s.ns| ==> s'.ns[n].pausing == s.ns[n].pausing)
    && (s'.state == s.state || (s.state == Pausing && s'.state == Paused && Idle(s')))
    && (Idle(s) ==> Idle(s'))
  }

  lemma {:induction false} CheckPausedKeeps(s: State, was: State)
    requires Books(s) && FlightOk(s) && Owed(s) && Owed(was)
    requires s.state == was.state && s.queued == was.queued && s.requested == was.requested && |s.ns| == |was.ns|
    requires forall n :: 0 <= n < |s.ns| ==> s.ns[n].pausing == was.ns[n].pausing && s.ns[n].io <= was.ns[n].io
    requires s.mgmt <= was.mgmt && s.mgmtLeak == was.mgmtLeak
    ensures Core(CheckPaused(s)) && Sound(was, CheckPaused(s))
  {
    if Idle(was) {
      forall n | 0 <= n < |s.ns| && s.ns[n].pausing ensures s.ns[n].io <= 0 {
        assert was.ns[n].io <= 0;
      }
    }
  }

  /** A request ends and its counter, if it gives it back, goes down by one. */
  lemma {:induction false} EndedKeeps(s: State, s': State, id: nat)
    requires Core(s) && id in s.flight && Owed(s') && |s'.ns| == |s.ns| && s'.mgmtLeak == s.mgmtLeak
    requires s'.flight == s.flight - {id} && s'.state == s.state && s'.queued == s.queued && s'.requested == s.requested
    requires s'.mgmt == s.mgmt - (if Mgmt(s.flight[id]) then 1 else 0) && s.flight[id].counted
    requires forall n :: 0 <= n < |s.ns| ==>
               && s'.ns[n].pausing == s.ns[n].pausing && s'.ns[n].leak == s.ns[n].leak
               && s'.ns[n].io == s.ns[n].io - (if !Mgmt(s.flight[id]) && s.flight[id].nsid == n + 1 then 1 else 0)
    ensures Core(CheckPaused(s')) && Sound(s, CheckPaused(s'))
  {
    hide IoIn, MgmtIn, NsBusy;
    BooksDrop(s, s', id);
    FlightCarriesOver(s, s', id);
    CheckPausedKeeps(s', s);
  }

  /** Requests with the asynchronous event opcode end without giving anything back. */
  lemma {:induction false} AerEndedKeeps(s: State, id: nat)
    requires Core(s) && id in s.flight && !s.flight[id].waiting && IsAer(s.flight[id])
    ensures Core(Completed(s, id, true)) && Sound(s, Completed(s, id, true))
  {
    var r := s.flight[id];
    assert WfReq(s, r);
    var s' := Leak(s.(flight := s.flight - {id}), r);
    hide NsBusy;
    BooksDrop(s, s', id);
    FlightCarriesOver(s, s', id);
    BusyCarriesOver(s, s');
  }

  lemma {:induction false} ZcopyStartedKeeps(s: State, id: nat, error: bool)
    requires Core(s) && id in s.flight && !Ends(s.flight[id], error)
    ensures Core(Completed(s, id, error)) && Sound(s, Completed(s, id, error))
  {
    assert WfReq(s, s.flight[id]);
    var s' := s.(flight := s.flight[id := s.flight[id].(phase := Execute)]);
    hide NsBusy;
    BooksPut(s, s', id, s.flight[id].(phase := Execute));
    FlightCarriesOver(s, s', id);
    CheckPausedKeeps(s', s);
  }

  lemma {:induction false} CompletedKeeps(s: State, id: nat, error: bool)
    requires Core(s) && id in s.flight && !s.flight[id].waiting
    ensures !Mgmt(s.flight[id]) ==> NsidValid(s, s.flight[id])
    ensures Core(Completed(s, id, error)) && Sound(s, Completed(s, id, error))
  {
    var r := s.flight[id];
    assert WfReq(s, r);
    hide Core, Sound;
    if !Ends(r, error) {
      ZcopyStartedKeeps(s, id, error);
    } else if IsAer(r) {
      AerEndedKeeps(s, id);
    } else if Mgmt(r) {
      EndedKeeps(s, s.(flight := s.flight - {id}, mgmt := s.mgmt - 1), id);
    } else {
      EndedKeeps(s, s.(flight := s.flight - {id}, ns := AddIo(s.ns, r.nsid, -1)), id);
    }
  }

  lemma {:induction false} FlightCarriesOver(s: State, s': State, id: nat)
    requires FlightOk(s) && |s'.ns| == |s.ns|
    requires forall k :: k in s'.flight && k != id ==> k in s.flight && s'.flight[k] == s.flight[k]
    requires id in s'.flight ==> WfReq(s', s'.flight[id])
    ensures FlightOk(s')
  {
    forall k | k in s'.flight ensures WfReq(s', s'.flight[k]) {
      assert k != id ==> WfReq(s, s.flight[k]);
    }
  }

  lemma {:induction false} BusyCarriesOver(s: State, s': State)
    requires |s'.ns| == |s.ns|
    requires forall n :: 0 <= n < |s.ns| ==> s'.ns[n].pausing == s.ns[n].pausing && s'.ns[n].io == s.ns[n].io
    ensures NsBusy(s'.ns) == NsBusy(s.ns)
  {
    forall n | 0 <= n < |s.ns| ensures (s'.ns[n].pausing && s'.ns[n].io > 0) == (s.ns[n].pausing && s.ns[n].io > 0) {}
    if n :| 0 <= n < |s.ns| && s.ns[n].pausing && s.ns[n].io > 0 {
      assert s'.ns[n].pausing && s'.ns[n].io > 0;
    }
  }

  /** A new request is admitted and counted. */
  lemma {:induction false} CountedKeeps(s: State, id: nat, r: Req)
    requires Core(s) && FusedOk(s) && id !in s.flight && WfReq(s, r.(counted := true, waiting := false))
    ensures Core(Counted(s, id, r)) && FusedOk(Counted(s, id, r)) && !IsHeldFirst(Counted(s, id, r), id)
  {
    var s' := Counted(s, id, r);
    BooksPut(s, s', id, s'.flight[id]);
    FlightCarriesOver(s, s', id);
    if n :| 0 <= n < |s.ns| && s.ns[n].pausing && s.ns[n].io > 0 {
      assert s'.ns[n].pausing && s'.ns[n].io > 0;
    }
  }

  lemma {:induction false} HeldKeeps(s: State, id: nat, r: Req, waiting: bool)
    requires Core(s) && FusedOk(s) && id !in s.flight && WfReq(s, r.(counted := false, waiting := waiting))
    ensures Core(Held(s, id, r, waiting)) && FusedOk(Held(s, id, r, waiting))
  {
    var s' := Held(s, id, r, waiting);
    BooksPut(s, s', id, s'.flight[id]);
    FlightCarriesOver(s, s', id);
  }

  /** Whole steps may count a new request, but still end a pause only when it is due. */
  ghost predicate Fair(s: State, s': State) {
    && s'.requested == s.requested && |s'.ns| == |s.ns| && s'.mgmtLeak >= s.mgmtLeak
    && (forall n :: 0 <= n < |s.ns| ==> s'.ns[n].pausing == s.ns[n].pausing)
    && (s'.state == s.state || (s.state == Pausing && s'.state == Paused && Idle(s')))
  }

  lemma {:induction false} DispatchMgmtKeeps(s: State, id: nat, r: Req, o: Outcome)
    requires Core(s) && FusedOk(s) && Fresh(s, id, r) && Mgmt(r)
    ensures var s' := DispatchMgmt(s, id, r, o);
            && Core(s') && FusedOk(s') && Fair(s, s') && s'.queued == s.queued
            && s'.flight.Keys <= s.flight.Keys + {id}
  {
    if IsAer(r) {
      if !o.Done? {
        HeldKeeps(s, id, r, false);
      }
    } else if o.RetryConnect? && r.connect {
      HeldKeeps(s, id, r, true);
    } else {
      CountedKeeps(s, id, r);
      CompletedKeeps(Counted(s, id, r), id, true);
    }
  }

  lemma {:induction false} AbortFirstKeeps(s: State, q: nat)
    requires Core(s) && FusedOk(s)
    ensures var s' := AbortFirst(s, q);
            && Core(s') && FusedOk(s') && Sound(s, s') && s'.firstFused == s.firstFused - {q}
            && s'.flight == (if q in s.firstFused then s.flight - {s.firstFused[q]} else s.flight)
  {
    if q in s.firstFused {
      assert WfReq(s, s.flight[s.firstFused[q]]);
      CompletedKeeps(s, s.firstFused[q], true);
    } else {
      assert s.firstFused - {q} == s.firstFused;
    }
  }

  lemma {:induction false} CompletedKeepsFused(s: State, id: nat, error: bool)
    requires Core(s) && FusedOk(s) && id in s.flight && !s.flight[id].waiting && !IsHeldFirst(s, id)
    ensures var s' := Completed(s, id, error);
            Core(s') && FusedOk(s') && Sound(s, s') && s'.flight.Keys <= s.flight.Keys
  {
    CompletedKeeps(s, id, error);
    hide Core, Sound, NsBusy;
  }

  lemma {:induction false} HoldFirstKeeps(s: State, id: nat)
    requires Core(s) && FusedOk(s) && id in s.flight && !Mgmt(s.flight[id]) && s.flight[id].fuse.First?
    requires !IsHeldFirst(s, id) && NsidValid(s, s.flight[id])
    ensures var s' := AbortFirst(s, s.flight[id].qpair).(firstFused := s.firstFused[s.flight[id].qpair := id]);
            Core(s') && FusedOk(s') && Sound(s, s') && s'.flight.Keys <= s.flight.Keys
  {
    var q := s.flight[id].qpair;
    assert WfReq(s, s.flight[id]);
    AbortFirstKeeps(s, q);
    hide AbortFirst, MgmtIn, IoIn, NsBusy;
    var s1 := AbortFirst(s, q);
    assert s1.flight[id] == s.flight[id];
    FlightCarriesOver(s1, s1.(firstFused := s.firstFused[q := id]), id);
  }

  lemma {:induction false} AbortThenCompleteKeeps(s: State, id: nat, q: nat, error: bool)
    requires Core(s) && FusedOk(s) && id in s.flight && !Mgmt(s.flight[id]) && !IsHeldFirst(s, id)
    ensures var s1 := AbortFirst(s, q);
            && Core(s1) && FusedOk(s1) && Sound(s, s1) && id in s1.flight && s1.flight[id] == s.flight[id]
            && s1.flight.Keys <= s.flight.Keys && NsidValid(s1, s.flight[id])
            && var s' := Completed(s1, id, error);
               Core(s') && FusedOk(s') && Sound(s, s') && s'.flight.Keys <= s.flight.Keys
  {
    assert WfReq(s, s.flight[id]);
    AbortFirstKeeps(s, q);
    hide Core, AbortFirst, NsBusy;
    CompletedKeepsFused(AbortFirst(s, q), id, error);
    hide Completed;
  }

  lemma {:induction false} DispatchIoKeeps(s: State, id: nat, o: Outcome)
    requires Core(s) && FusedOk(s) && id in s.flight && !Mgmt(s.flight[id]) && NsidValid(s, s.flight[id])
    requires !IsHeldFirst(s, id)
    ensures var s' := DispatchIo(s, id, o);
            Core(s') && FusedOk(s') && Sound(s, s') && s'.flight.Keys <= s.flight.Keys
  {
    var r := s.flight[id];
    var q := r.qpair;
    assert WfReq(s, r);
    CompletedKeepsFused(s, id, true);
    AbortThenCompleteKeeps(s, id, q, if o.Done? && r.fuse.Single? then o.error else true);
    if r.fuse.First? {
      HoldFirstKeeps(s, id);
    } else if r.fuse.Second? {
      ForgetFirstKeeps(s, q);
    }
    hide Core, FusedOk, Sound, AbortFirst, Completed;
  }

  /** The held first command goes on together with its second. */
  lemma {:induction false} ForgetFirstKeeps(s: State, q: nat)
    requires Core(s) && FusedOk(s)
    ensures var s' := s.(firstFused := s.firstFused - {q});
            Core(s') && FusedOk(s') && Sound(s, s')
  {
    var s' := s.(firstFused := s.firstFused - {q});
    hide MgmtIn, IoIn, NsBusy;
    forall k | k in s'.flight ensures WfReq(s', s'.flight[k]) {
      assert WfReq(s, s.flight[k]);
    }
  }

  lemma {:induction false} ExecKeeps(s: State, id: nat, r: Req, qpairActive: bool, o: Outcome)
    requires Core(s) && FusedOk(s) && Fresh(s, id, r)
    ensures var s' := ExecStep(s, id, r, qpairActive, o);
            && Core(s') && FusedOk(s') && Fair(s, s') && s'.flight.Keys <= s.flight.Keys + {id}
            && (s'.queued == s.queued || (s'.queued == s.queued + [(id, r)] && s'.flight == s.flight && s.state != Active))
  {
    if Mgmt(r) {
      ExecMgmtKeeps(s, id, r, qpairActive, o);
    } else if !NsidValid(s, r) {
      CheckPausedKeeps(s, s);
    } else {
      ExecIoKeeps(s, id, r, qpairActive, o);
    }
  }

  lemma {:induction false} ExecIoKeeps(s: State, id: nat, r: Req, qpairActive: bool, o: Outcome)
    requires Core(s) && FusedOk(s) && Fresh(s, id, r) && !Mgmt(r) && NsidValid(s, r)
    ensures var s' := ExecStep(s, id, r, qpairActive, o);
            && Core(s') && FusedOk(s') && Fair(s, s') && s'.flight.Keys <= s.flight.Keys + {id}
            && (s'.queued == s.queued || (s'.queued == s.queued + [(id, r)] && s'.flight == s.flight && s.state != Active))
  {
    CountedKeeps(s, id, r);
    if s.ns[r.nsid - 1].channel && s.ns[r.nsid - 1].pausing {
      PausingMeansNotActive(s, r);
      QueuedKeeps(s, id, r);
      hide Core, FusedOk, NsBusy;
    } else {
      var s1 := Counted(s, id, r);
      var s' := ExecStep(s, id, r, qpairActive, o);
      CountedEnds(s1, id, s', qpairActive, o);
      SoundAfterCounted(s, id, r, s');
      hide Core, FusedOk, Fair, ExecStep;
    }
  }

  /** An admitted I/O is refused or dispatched. */
  lemma {:induction false} CountedEnds(s: State, id: nat, s': State, qpairActive: bool, o: Outcome)
    requires Core(s) && FusedOk(s) && id in s.flight && !Mgmt(s.flight[id]) && NsidValid(s, s.flight[id]) && !IsHeldFirst(s, id)
    requires s' == Completed(s, id, true) || s' == DispatchIo(s, id, o)
    ensures Core(s') && FusedOk(s') && Sound(s, s') && s'.flight.Keys <= s.flight.Keys
  {
    assert WfReq(s, s.flight[id]);
    CompletedKeepsFused(s, id, true);
    DispatchIoKeeps(s, id, o);
    hide Core, FusedOk, Sound, Completed, DispatchIo;
  }

  lemma SoundAfterCounted(s: State, id: nat, r: Req, s': State)
    requires !Mgmt(r) && NsidValid(s, r) && Sound(Counted(s, id, r), s') && s'.flight.Keys <= Counted(s, id, r).flight.Keys
    ensures Fair(s, s') && s'.flight.Keys <= s.flight.Keys + {id} && s'.queued == s.queued
  {
    hide NsBusy;
  }

  lemma {:induction false} QueuedKeeps(s: State, id: nat, r: Req)
    requires Core(s) && FusedOk(s)
    ensures Core(s.(queued := s.queued + [(id, r)])) && FusedOk(s.(queued := s.queued + [(id, r)]))
  {
    hide MgmtIn, IoIn, NsBusy;
    FlightCarriesOver(s, s.(queued := s.queued + [(id, r)]), id);
  }

  lemma PausingMeansNotActive(s: State, r: Req)
    requires Core(s) && NsidValid(s, r)
    ensures s.ns[r.nsid - 1].pausing ==> s.state != Active
  {}

  lemma {:induction false} ExecMgmtKeeps(s: State, id: nat, r: Req, qpairActive: bool, o: Outcome)
    requires Core(s) && FusedOk(s) && Fresh(s, id, r) && Mgmt(r)
    ensures var s' := ExecStep(s, id, r, qpairActive, o);
            && Core(s') && FusedOk(s') && Fair(s, s') && s'.flight.Keys <= s.flight.Keys + {id}
            && (s'.queued == s.queued || (s'.queued == s.queued + [(id, r)] && s'.flight == s.flight && s.state != Active))
  {
    var s' := ExecStep(s, id, r, qpairActive, o);
    if s.state != Active || (!qpairActive && IsAer(r)) {
      hide MgmtIn, IoIn, NsBusy;
      FlightCarriesOver(s, s', id);
    } else if !qpairActive {
      CountedKeeps(s, id, r);
      CompletedKeepsFused(Counted(s, id, r), id, true);
      hide Core, FusedOk, Completed;
    } else {
      DispatchMgmtKeeps(s, id, r, o);
      hide Core, FusedOk, DispatchMgmt;
    }
  }

  /** With no other pause pending, pausing signals at once only if nothing it waits for is counted. */
  lemma {:induction false} PauseKeeps(s: State, nsid: nat, all: bool)
    requires Core(s) && FusedOk(s) && s.state != Pausing
    ensures var s' := PauseStep(s, nsid, all);
            && Core(s') && FusedOk(s') && s'.flight == s.flight && s'.queued == s.queued
            && s'.requested == s.requested + 1 && |s'.ns| == |s.ns| && s'.mgmtLeak == s.mgmtLeak
            && (s.state == Active && s'.state == Paused ==> Idle(s'))
  {
    var s' := PauseStep(s, nsid, all);
    hide MgmtIn, IoIn;
    BooksSame(s, s');
    FlightCarriesOver(s, s', 0);
    if s.state == Active && s'.state == Paused && !all {
      forall n | 0 <= n < |s'.ns| ensures !(s'.ns[n].pausing && s'.ns[n].io > 0) {
        assert s'.ns[n].io == s.ns[n].io && !s.ns[n].pausing;
      }
    }
    if s.state == Active && s'.state == Pausing && s'.mgmt == 0 {
      if all {
        assert NsBusy(s'.ns);
      } else {
        assert s'.ns[nsid - 1].pausing && s'.ns[nsid - 1].io > 0;
      }
    }
  }

  lemma {:induction false} BooksSame(s: State, s': State)
    requires Books(s) && s'.flight == s.flight && s'.mgmt == s.mgmt && s'.mgmtLeak == s.mgmtLeak && |s'.ns| == |s.ns|
    requires forall n :: 0 <= n < |s.ns| ==> s'.ns[n].io == s.ns[n].io && s'.ns[n].leak == s.ns[n].leak
    ensures Books(s')
  {}

  lemma {:induction false} ResumeKeeps(s: State)
    requires Core(s) && FusedOk(s) && s.state != Pausing
    ensures var s' := ResumeStep(s);
            && Core(s') && FusedOk(s') && s'.flight == s.flight && s'.queued == s.queued && s'.state == Active
            && s'.requested == s.requested && s'.mgmtLeak == s.mgmtLeak && |s'.ns| == |s.ns|
  {
    hide MgmtIn, IoIn, NsBusy;
    BooksSame(s, ResumeStep(s));
    FlightCarriesOver(s, ResumeStep(s), 0);
  }

  lemma {:induction false} QueueCarriesOver(s: State, s': State, ids: set<nat>)
    requires QueueOk(s) && s'.queued == s.queued && s'.flight.Keys <= s.flight.Keys + ids
    requires forall k :: 0 <= k < |s.queued| ==> s.queued[k].0 !in ids
    ensures QueueOk(s')
  {
    forall k | 0 <= k < |s'.queued| ensures Fresh(s', s'.queued[k].0, s'.queued[k].1) {
      assert Fresh(s, s.queued[k].0, s.queued[k].1);
    }
  }

  lemma {:induction false} ExecKeepsQueue(s: State, id: nat, r: Req, qpairActive: bool, o: Outcome)
    requires Core(s) && FusedOk(s) && QueueOk(s) && Fresh(s, id, r)
    requires forall k :: 0 <= k < |s.queued| ==> s.queued[k].0 != id
    ensures QueueOk(ExecStep(s, id, r, qpairActive, o))
  {
    var s' := ExecStep(s, id, r, qpairActive, o);
    ExecKeeps(s, id, r, qpairActive, o);
    hide ExecStep, Core, FusedOk;
    if s'.queued == s.queued {
      QueueCarriesOver(s, s', {id});
    } else {
      QueueAppend(s, s', id, r);
    }
  }

  lemma {:induction false} QueueAppend(s: State, s': State, id: nat, r: Req)
    requires QueueOk(s) && s'.queued == s.queued + [(id, r)] && s'.flight == s.flight && Fresh(s, id, r)
    requires forall k :: 0 <= k < |s.queued| ==> s.queued[k].0 != id
    ensures QueueOk(s')
  {
    forall k | 0 <= k < |s'.queued| ensures Fresh(s', s'.queued[k].0, s'.queued[k].1) {
      assert k < |s.queued| ==> s'.queued[k] == s.queued[k] && Fresh(s, s.queued[k].0, s.queued[k].1);
    }
  }

  /** What a step guarantees beside the invariant: a pause completes by a step only if, once
      the step is done, nothing that the pause waits for is counted; the one exception is
      the pause of a group that is paused already, which is answered at once. */
  ghost predicate StepOk(s: State, e: Event, s': State) {
    && Inv(s')
    && (s.state != Paused && s'.state == Paused ==> Idle(s'))
    && s'.requested == s.requested + (if e.PauseGroup? then 1 else 0)
    && s'.mgmtLeak >= s.mgmtLeak && |s'.ns| == |s.ns|
    && (!e.PauseGroup? && !e.Resume? ==> forall n :: 0 <= n < |s.ns| ==> s'.ns[n].pausing == s.ns[n].pausing)
    && (s.state == Pausing ==> s'.state != Active)
  }

  lemma {:induction false} ExecStepOk(s: State, e: Event)
    requires Inv(s) && Enabled(s, e) && e.Exec?
    ensures StepOk(s, e, Step(s, e))
  {
    ExecKeeps(s, e.id, e.r, e.qpairActive, e.o);
    ExecKeepsQueue(s, e.id, e.r, e.qpairActive, e.o);
    hide Core, FusedOk, QueueOk, ExecStep;
  }

  lemma {:induction false} ReleaseStepOk(s: State, e: Event)
    requires Inv(s) && Enabled(s, e) && e.Release?
    ensures StepOk(s, e, Step(s, e))
  {
    var t := s.(queued := s.queued[1..]);
    var (id, r) := s.queued[0];
    PopKeeps(s);
    ExecKeeps(t, id, r, e.qpairActive, e.o);
    ExecKeepsQueue(t, id, r, e.qpairActive, e.o);
    hide Core, FusedOk, QueueOk, ExecStep;
  }

  lemma {:induction false} PopKeeps(s: State)
    requires Inv(s) && s.queued != []
    ensures var t := s.(queued := s.queued[1..]);
            && Inv(t) && Fresh(t, s.queued[0].0, s.queued[0].1)
            && forall k :: 0 <= k < |t.queued| ==> t.queued[k].0 != s.queued[0].0
  {
    var t := s.(queued := s.queued[1..]);
    hide MgmtIn, IoIn, NsBusy;
    FlightCarriesOver(s, t, 0);
    forall k | 0 <= k < |t.queued| ensures Fresh(t, t.queued[k].0, t.queued[k].1) {
      assert t.queued[k] == s.queued[k + 1] && Fresh(s, s.queued[k + 1].0, s.queued[k + 1].1);
    }
    assert Fresh(s, s.queued[0].0, s.queued[0].1);
  }

  /** A connect that stops waiting was not counted. */
  lemma {:induction false} WokenKeeps(s: State, id: nat)
    requires Core(s) && FusedOk(s) && id in s.flight && s.flight[id].waiting
    ensures var t := s.(flight := s.flight - {id});
            Core(t) && FusedOk(t) && Fresh(t, id, s.flight[id].(waiting := false)) && Mgmt(s.flight[id])
  {
    assert WfReq(s, s.flight[id]);
    hide NsBusy;
    BooksDrop(s, s.(flight := s.flight - {id}), id);
    FlightCarriesOver(s, s.(flight := s.flight - {id}), id);
  }

  lemma {:induction false} RetryStepOk(s: State, e: Event)
    requires Inv(s) && Enabled(s, e) && e.Retry?
    ensures Mgmt(s.flight[e.id]) && StepOk(s, e, Step(s, e))
  {
    WokenKeeps(s, e.id);
    if !e.o.RetryConnect? {
      var t := s.(flight := s.flight - {e.id});
      DispatchMgmtKeeps(t, e.id, s.flight[e.id].(waiting := false), e.o);
      QueueCarriesOver(s, t, {});
      assert e.id in s.flight && QueueOk(s);
      hide Core, FusedOk, DispatchMgmt;
      QueueCarriesOver(t, Step(s, e), {e.id});
      hide QueueOk;
    }
  }

  lemma {:induction false} FabricsStepOk(s: State, e: Event)
    requires Inv(s) && Enabled(s, e) && e.ExecFabrics?
    ensures StepOk(s, e, Step(s, e))
  {
    DispatchMgmtKeeps(s, e.id, e.r, e.o);
    hide Core, FusedOk, DispatchMgmt;
    QueueCarriesOver(s, Step(s, e), {e.id});
    hide QueueOk;
  }

  lemma {:induction false} ZcopyEndKeeps(s: State, id: nat)
    requires Core(s) && FusedOk(s) && id in s.flight && s.flight[id].phase == Execute
    ensures var t := s.(flight := s.flight[id := s.flight[id].(phase := EndPending)]);
            Core(t) && FusedOk(t) && t.flight.Keys <= s.flight.Keys
  {
    var t := s.(flight := s.flight[id := s.flight[id].(phase := EndPending)]);
    assert WfReq(s, s.flight[id]);
    hide NsBusy;
    BooksPut(s, t, id, t.flight[id]);
    FlightCarriesOver(s, t, id);
  }

  /** Every step keeps the books and ends a pause only when it may. */
  lemma {:induction false} StepIsOk(s: State, e: Event)
    requires Inv(s) && Enabled(s, e)
    ensures StepOk(s, e, Step(s, e))
  {
    match e {
      case Exec(_, _, _, _) => ExecStepOk(s, e);
      case ExecFabrics(_, _, _) => FabricsStepOk(s, e);
      case Release(_, _) => ReleaseStepOk(s, e);
      case Retry(_, _) => RetryStepOk(s, e);
      case _ => OtherStepOk(s, e);
    }
  }

  lemma {:induction false} CompleteStepOk(s: State, e: Event)
    requires Inv(s) && Enabled(s, e) && e.Complete?
    ensures StepOk(s, e, Step(s, e))
  {
    CompletedKeepsFused(s, e.id, e.error);
    hide Core, FusedOk, Completed, NsBusy;
    QueueCarriesOver(s, Step(s, e), {});
    hide QueueOk;
  }

  lemma {:induction false} OtherStepOk(s: State, e: Event)
    requires Inv(s) && Enabled(s, e) && (e.Complete? || e.ZcopyEnd? || e.PauseGroup? || e.Resume?)
    ensures StepOk(s, e, Step(s, e))
  {
    match e {
      case Complete(id, error) => CompleteStepOk(s, e);
      case ZcopyEnd(id) =>
        ZcopyEndKeeps(s, id);
        SameIdsStepOk(s, e, Step(s, e));
      case PauseGroup(nsid, all) =>
        PauseKeeps(s, nsid, all);
        SameIdsStepOk(s, e, Step(s, e));
      case Resume =>
        ResumeKeeps(s);
        SameIdsStepOk(s, e, Step(s, e));
    }
  }

  lemma {:induction false} SameIdsStepOk(s: State, e: Event, s': State)
    requires Inv(s) && Core(s') && FusedOk(s') && s'.queued == s.queued && s'.flight.Keys <= s.flight.Keys
    requires s'.requested == s.requested + (if e.PauseGroup? then 1 else 0)
    requires s.state != Paused && s'.state == Paused ==> Idle(s')
    requires s'.mgmtLeak >= s.mgmtLeak && |s'.ns| == |s.ns| && (s.state == Pausing ==> s'.state != Active)
    requires !e.PauseGroup? && !e.Resume? ==> forall n :: 0 <= n < |s.ns| ==> s'.ns[n].pausing == s.ns[n].pausing
    ensures StepOk(s, e, s')
  {
    QueueCarriesOver(s, s', {});
    hide QueueOk, Core, FusedOk, NsBusy;
  }

  /** What a paused host may rely on: no management request but asynchronous event requests
      and connects waiting to be tried again, and no I/O to a pausing namespace. */
  ghost predicate Quiet(s: State) {
    forall id :: id in s.flight ==>
      var r := s.flight[id];
      if Mgmt(r) then IsAer(r) || r.waiting else NsidValid(s, r) && !s.ns[r.nsid - 1].pausing
  }

  lemma {:induction false} IdleIsQuiet(s: State)
    requires Inv(s) && Idle(s)
    ensures Quiet(s)
  {
    forall id | id in s.flight
      ensures var r := s.flight[id];
              if Mgmt(r) then IsAer(r) || r.waiting else NsidValid(s, r) && !s.ns[r.nsid - 1].pausing
    {
      var r := s.flight[id];
      assert WfReq(s, r);
      if Mgmt(r) {
        assert id !in MgmtIn(s.flight);
      } else {
        assert id in IoIn(s.flight, r.nsid);
        assert s.ns[r.nsid - 1].io > 0;
      }
    }
  }

  ghost predicate Admissible(s: State, es: seq<Event>)
    decreases |es|
  {
    es == [] || (Inv(s) && Enabled(s, es[0]) && Admissible(Step(s, es[0]), es[1..]))
  }

  ghost function Run(s: State, es: seq<Event>): State
    requires Admissible(s, es)
    decreases |es|
  {
    if es == [] then s else Run(Step(s, es[0]), es[1..])
  }

  lemma {:induction false} RunKeepsInv(s: State, es: seq<Event>)
    requires Inv(s) && Admissible(s, es)
    ensures Inv(Run(s, es))
    decreases |es|
  {
    if es != [] {
      StepIsOk(s, es[0]);
      hide Step;
      RunKeepsInv(Step(s, es[0]), es[1..]);
    }
  }

  ghost predicate Initial(s: State) {
    && s.state == Active && s.mgmt == s.mgmtLeak == 0 && s.flight == map[] && s.firstFused == map[] && s.queued == []
    && !s.callback && s.requested == s.signalled == 0
    && forall n :: 0 <= n < |s.ns| ==> !s.ns[n].pausing && s.ns[n].io == s.ns[n].leak == 0
  }

  lemma {:induction false} InitialInv(s: State)
    requires Initial(s)
    ensures Inv(s)
  {
    assert MgmtIn(s.flight) == {};
    forall n | 0 <= n < |s.ns| ensures s.ns[n].io == |IoIn(s.flight, n + 1)| + s.ns[n].leak {
      assert IoIn(s.flight, n + 1) == {};
    }
  }

  // What a pause promises to the namespaces it names.

  /** A pause for `nsid`, or for all namespaces, names namespace `n`. */
  predicate Names(nsid: nat, all: bool, n: nat) {
    all || nsid == n + 1
  }

  /** Every namespace that was named is marked, and the group is not active. */
  ghost predicate Holding(s: State, nsid: nat, all: bool) {
    s.state != Active && forall n :: 0 <= n < |s.ns| && Names(nsid, all, n) ==> s.ns[n].pausing
  }

  /** The I/Os in flight to namespace `n`, counted or not. */
  function IosTo(m: map<nat, Req>, n: nat): set<nat> {
    set id | id in m && !Mgmt(m[id]) && m[id].nsid == n + 1
  }

  ghost predicate NoResume(es: seq<Event>) {
    forall k :: 0 <= k < |es| ==> !es[k].Resume?
  }

  /** Pausing an active group holds all it names, idle or not. */
  lemma {:induction false} PauseHolds(s: State, nsid: nat, all: bool)
    requires Inv(s) && s.state == Active
    ensures var t := Step(s, PauseGroup(nsid, all));
            && Inv(t) && Holding(t, nsid, all) && t.flight == s.flight && t.queued == s.queued && |t.ns| == |s.ns|
  {
    StepIsOk(s, PauseGroup(nsid, all));
    PauseKeeps(s, nsid, all);
    hide Core, FusedOk, QueueOk, NsBusy;
  }

  /** Until it resumes, a group goes on holding them. */
  lemma {:induction false} HoldingStays(s: State, e: Event, nsid: nat, all: bool)
    requires Inv(s) && Enabled(s, e) && Holding(s, nsid, all) && !e.Resume?
    ensures Holding(Step(s, e), nsid, all) && |Step(s, e).ns| == |s.ns|
  {
    StepIsOk(s, e);
    if s.state == Paused {
      PausedStays(s, e);
    }
    hide Inv, Step;
  }

  lemma {:induction false} PausedStays(s: State, e: Event)
    requires Inv(s) && Enabled(s, e) && s.state == Paused && !e.Resume?
    ensures Step(s, e).state == Paused
    ensures |Step(s, e).ns| == |s.ns| && forall n :: 0 <= n < |s.ns| ==> Step(s, e).ns[n].pausing == s.ns[n].pausing
  {
    StepIsOk(s, e);
    match e {
      case Exec(id, r, qpairActive, o) => ExecKeeps(s, id, r, qpairActive, o);
      case ExecFabrics(id, r, o) => DispatchMgmtKeeps(s, id, r, o);
      case Retry(id, o) => RetryStateStays(s, id, o);
      case Complete(id, error) => CompletedKeeps(s, id, error);
      case _ =>
    }
    hide Core, FusedOk, QueueOk, ExecStep, DispatchMgmt, Completed;
  }

  lemma {:induction false} RetryStateStays(s: State, id: nat, o: Outcome)
    requires Inv(s) && Enabled(s, Retry(id, o))
    ensures Step(s, Retry(id, o)).state == s.state || s.state == Pausing
  {
    WokenKeeps(s, id);
    var t := s.(flight := s.flight - {id});
    DispatchMgmtKeeps(t, id, s.flight[id].(waiting := false), o);
    hide Core, FusedOk, QueueOk, DispatchMgmt;
  }

  /** What one step does to the I/Os of a held namespace: none is added to those in flight;
      a new one that finds its namespace there, with a channel, is queued. */
  lemma {:induction false} HeldTakesNone(s: State, e: Event, n: nat)
    requires Inv(s) && Enabled(s, e) && s.state != Active && n < |s.ns| && s.ns[n].pausing
    ensures IosTo(Step(s, e).flight, n) <= IosTo(s.flight, n)
    ensures e.Exec? && !Mgmt(e.r) && e.r.nsid == n + 1 && s.ns[n].channel ==> Step(s, e).queued == s.queued + [(e.id, e.r)]
  {
    match e {
      case Exec(id, r, qpairActive, o) => HeldExec(s, id, r, qpairActive, o, n);
      case ExecFabrics(id, r, o) => HeldDispatch(s, id, r, o, n);
      case Retry(id, o) =>
        WokenKeeps(s, id);
        HeldDispatch(s.(flight := s.flight - {id}), id, s.flight[id].(waiting := false), o, n);
      case Complete(id, error) => assert WfReq(s, s.flight[id]);
      case _ =>
    }
    hide Core, FusedOk, QueueOk, NsBusy, DispatchMgmt, ExecStep;
  }

  /** A management request adds no I/O. */
  lemma {:induction false} HeldDispatch(s: State, id: nat, r: Req, o: Outcome, n: nat)
    requires Core(s) && FusedOk(s) && Fresh(s, id, r) && Mgmt(r)
    ensures IosTo(DispatchMgmt(s, id, r, o).flight, n) <= IosTo(s.flight, n)
  {
    hide Core, FusedOk, NsBusy;
  }

  lemma {:induction false} HeldExec(s: State, id: nat, r: Req, qpairActive: bool, o: Outcome, n: nat)
    requires Core(s) && FusedOk(s) && Fresh(s, id, r) && s.state != Active && n < |s.ns| && s.ns[n].pausing
    ensures var t := ExecStep(s, id, r, qpairActive, o);
            && IosTo(t.flight, n) <= IosTo(s.flight, n)
            && (!Mgmt(r) && r.nsid == n + 1 && s.ns[n].channel ==> t.queued == s.queued + [(id, r)])
  {
    if !Mgmt(r) && NsidValid(s, r) && r.nsid != n + 1 {
      CountedKeeps(s, id, r);
      HeldEnds(Counted(s, id, r), id, o, n);
      assert IosTo(Counted(s, id, r).flight, n) <= IosTo(s.flight, n);
      hide Core, FusedOk, NsBusy, Completed, DispatchIo;
    } else {
      hide Core, FusedOk, NsBusy, DispatchIo, DispatchMgmt;
    }
  }

  lemma {:induction false} CompletedAddsNone(s: State, id: nat, error: bool, n: nat)
    requires id in s.flight && (!Mgmt(s.flight[id]) ==> NsidValid(s, s.flight[id]))
    ensures IosTo(Completed(s, id, error).flight, n) <= IosTo(s.flight, n)
  {
    hide NsBusy;
  }

  lemma {:induction false} AbortsAddNone(s: State, id: nat, q: nat, error: bool, n: nat)
    requires Core(s) && FusedOk(s) && id in s.flight && !Mgmt(s.flight[id]) && !IsHeldFirst(s, id)
    ensures IosTo(AbortFirst(s, q).flight, n) <= IosTo(s.flight, n)
    ensures id in AbortFirst(s, q).flight && NsidValid(AbortFirst(s, q), s.flight[id]) && AbortFirst(s, q).flight[id] == s.flight[id]
    ensures IosTo(Completed(AbortFirst(s, q), id, error).flight, n) <= IosTo(s.flight, n)
  {
    AbortFirstKeeps(s, q);
    AbortThenCompleteKeeps(s, id, q, error);
    CompletedAddsNone(AbortFirst(s, q), id, error, n);
    hide Core, Sound, FusedOk, AbortFirst, Completed;
  }

  /** Refusing or dispatching an I/O of another namespace adds none to this one. */
  lemma {:induction false} HeldEnds(s: State, id: nat, o: Outcome, n: nat)
    requires Core(s) && FusedOk(s) && id in s.flight && !Mgmt(s.flight[id]) && NsidValid(s, s.flight[id]) && !IsHeldFirst(s, id)
    ensures IosTo(Completed(s, id, true).flight, n) <= IosTo(s.flight, n)
    ensures IosTo(DispatchIo(s, id, o).flight, n) <= IosTo(s.flight, n)
  {
    var r := s.flight[id];
    AbortsAddNone(s, id, r.qpair, if o.Done? && r.fuse.Single? then o.error else true, n);
    CompletedAddsNone(s, id, true, n);
    hide Core, FusedOk, AbortFirst, Completed, NsidValid, IsHeldFirst, IosTo;
  }

  /** From the pause of an active group until it resumes, no step admits an I/O to a namespace
      the pause named: those in flight never gain a member, and every new one is queued. */
  lemma {:induction false} NamedTakeNone(s: State, es: seq<Event>, nsid: nat, all: bool, n: nat)
    requires Inv(s) && Holding(s, nsid, all) && n < |s.ns| && Names(nsid, all, n)
    requires Admissible(s, es) && NoResume(es)
    ensures var t := Run(s, es); Inv(t) && Holding(t, nsid, all) && |t.ns| == |s.ns| && IosTo(t.flight, n) <= IosTo(s.flight, n)
    decreases |es|
  {
    if es != [] {
      StepIsOk(s, es[0]);
      HoldingStays(s, es[0], nsid, all);
      HeldTakesNone(s, es[0], n);
      hide Step, Inv, Holding, IosTo;
      NamedTakeNone(Step(s, es[0]), es[1..], nsid, all, n);
    }
  }

  /** Whenever a step makes the group paused, over every run, no management request and no I/O
      to a marked namespace is in flight. */
  lemma {:induction false} PausedIsQuiet(s: State, es: seq<Event>, e: Event)
    requires Inv(s) && Admissible(s, es) && Enabled(Run(s, es), e)
    ensures Inv(Run(s, es))
    ensures Run(s, es).state != Paused && Step(Run(s, es), e).state == Paused ==> Quiet(Step(Run(s, es), e))
  {
    RunKeepsInv(s, es);
    StepIsOk(Run(s, es), e);
    var s' := Step(Run(s, es), e);
    hide Step, Run, Inv, NsBusy;
    if Run(s, es).state != Paused && s'.state == Paused {
      IdleIsQuiet(s');
    }
  }

  /** Nothing is in flight to a namespace that was named once the group is paused. */
  ghost predicate QuietTo(s: State, n: nat) {
    s.state == Paused ==> IosTo(s.flight, n) == {}
  }

  lemma {:induction false} IdleQuietsNamed(s: State, nsid: nat, all: bool, n: nat)
    requires Inv(s) && Idle(s) && Holding(s, nsid, all) && n < |s.ns| && Names(nsid, all, n)
    ensures IosTo(s.flight, n) == {}
  {
    IdleIsQuiet(s);
    hide Inv;
  }

  lemma {:induction false} QuietToStays(s: State, e: Event, nsid: nat, all: bool, n: nat)
    requires Inv(s) && Enabled(s, e) && Holding(s, nsid, all) && n < |s.ns| && Names(nsid, all, n) && !e.Resume? && QuietTo(s, n)
    ensures QuietTo(Step(s, e), n)
  {
    StepIsOk(s, e);
    HoldingStays(s, e, nsid, all);
    HeldTakesNone(s, e, n);
    var t := Step(s, e);
    hide Step, Inv, Idle;
    if s.state != Paused && t.state == Paused {
      IdleQuietsNamed(t, nsid, all, n);
    }
  }

  lemma {:induction false} QuietToOverRun(s: State, es: seq<Event>, nsid: nat, all: bool, n: nat)
    requires Inv(s) && Holding(s, nsid, all) && n < |s.ns| && Names(nsid, all, n) && QuietTo(s, n)
    requires Admissible(s, es) && NoResume(es)
    ensures QuietTo(Run(s, es), n)
    decreases |es|
  {
    if es != [] {
      StepIsOk(s, es[0]);
      HoldingStays(s, es[0], nsid, all);
      QuietToStays(s, es[0], nsid, all, n);
      hide Step, Inv, Holding, QuietTo;
      QuietToOverRun(Step(s, es[0]), es[1..], nsid, all, n);
    }
  }

  /** Pause is sound over every run. Let an active group be paused, for one namespace or for
      all, and not be resumed. Then the I/Os in flight to each namespace that was named only
      ever end, the namespace is marked, and there are none left whenever the group is
      paused. */
  lemma {:induction false} PauseIsSound(s: State, nsid: nat, all: bool, es: seq<Event>, n: nat)
    requires Inv(s) && s.state == Active && n < |s.ns| && Names(nsid, all, n)
    requires Admissible(Step(s, PauseGroup(nsid, all)), es) && NoResume(es)
    ensures var t := Run(Step(s, PauseGroup(nsid, all)), es);
            && Inv(t) && |t.ns| == |s.ns| && t.ns[n].pausing && t.state != Active
            && IosTo(t.flight, n) <= IosTo(s.flight, n)
            && (t.state == Paused ==> IosTo(t.flight, n) == {})
  {
    var s1 := Step(s, PauseGroup(nsid, all));
    PauseHolds(s, nsid, all);
    StepIsOk(s, PauseGroup(nsid, all));
    NamedTakeNone(s1, es, nsid, all, n);
    hide Step, Run, Inv, IosTo, Admissible;
    if s1.state == Paused {
      IdleQuietsNamed(s1, nsid, all, n);
    }
    QuietToOverRun(s1, es, nsid, all, n);
  }

  // The code itself.

  class NvmfPollGroup {
    var state: GroupState
    var mgmt: int
    ghost var mgmtLeak: nat
    var ns: seq<Ns>
    var flight: map<nat, Req>
    var firstFused: map<nat, nat>
    var queued: seq<(nat, Req)>
    var callback: bool
    ghost var requested: nat
    var signalled: nat

    ghost function Abs(): State
      reads this
    {
      State(state, mgmt, mgmtLeak, ns, flight, firstFused, queued, callback, requested, signalled)
    }

    /** The end of `_nvmf_request_complete`. */
    method SignalIfPaused()
      modifies this`state, this`callback, this`signalled
      ensures Abs() == CheckPaused(old(Abs()))
    {
      if state == Pausing && mgmt == 0 {
        var paused := true;
        for n := 0 to |ns|
          invariant paused && forall k :: 0 <= k < n ==> !(ns[k].pausing && ns[k].io > 0)
        {
          if ns[n].pausing && ns[n].io > 0 {
            paused := false;
            break;
          }
        }
        if paused {
          state, callback, signalled := Paused, false, signalled + 1;
        }
      }
    }

    /** `_nvmf_request_complete`. */
    method RequestComplete(id: nat, error: bool)
      requires id in flight && (!Mgmt(flight[id]) ==> NsidValid(Abs(), flight[id]))
      requires Mgmt(flight[id]) || IsAer(flight[id]) ==> flight[id].phase == NoZcopy
      modifies this
      ensures Abs() == Completed(old(Abs()), id, error)
    {
      var r := flight[id];
      var ended := false;
      match r.phase {
        case NoZcopy =>
          flight, ended := flight - {id}, true;
        case Init =>
          if error {
            flight, ended := flight - {id}, true;
          } else {
            flight := flight[id := r.(phase := Execute)];
          }
        case Execute =>
          assert flight[id := r.(phase := Execute)] == flight;
        case EndPending =>
          flight, ended := flight - {id}, true;
      }
      if !IsAer(r) {
        if Mgmt(r) {
          mgmt := mgmt - 1;
        } else if ended {
          ns := ns[r.nsid - 1 := ns[r.nsid - 1].(io := ns[r.nsid - 1].io - 1)];
        }
        SignalIfPaused();
      } else if r.counted {
        if Mgmt(r) {
          mgmtLeak := mgmtLeak + 1;
        } else {
          ns := ns[r.nsid - 1 := ns[r.nsid - 1].(leak := ns[r.nsid - 1].leak + 1)];
        }
      }
    }

    /** `nvmf_check_subsystem_active`: on true the request is counted and in flight. */
    method CheckSubsystemActive(id: nat, r: Req, qpairActive: bool, ghost o: Outcome) returns (ok: bool)
      requires FusedOk(Abs()) && Fresh(Abs(), id, r)
      modifies this
      ensures ok && Mgmt(r) ==> old(state) == Active
      ensures ok && !Mgmt(r) ==> NsidValid(old(Abs()), r) && old(ns)[r.nsid - 1].channel && !old(ns)[r.nsid - 1].pausing
      ensures ok ==> qpairActive && Abs() == Counted(old(Abs()), id, r)
      ensures !ok ==> Abs() == ExecStep(old(Abs()), id, r, qpairActive, o)
    {
      ghost var s := Abs();
      if Mgmt(r) {
        if state != Active {
          queued := queued + [(id, r)];
          return false;
        }
        mgmt := mgmt + 1;
      } else {
        if !(1 <= r.nsid <= |ns|) {
          if !IsAer(r) {
            SignalIfPaused();
          }
          return false;
        }
        if ns[r.nsid - 1].channel && ns[r.nsid - 1].pausing {
          queued := queued + [(id, r)];
          return false;
        }
        ns := ns[r.nsid - 1 := ns[r.nsid - 1].(io := ns[r.nsid - 1].io + 1)];
      }
      flight := flight[id := r.(counted := true, waiting := false)];
      assert Abs() == Counted(s, id, r);
      if (!Mgmt(r) && !ns[r.nsid - 1].channel) || !qpairActive {
        assert flight - {id} == s.flight;
        RequestComplete(id, true);
        return false;
      }
      return true;
    }

    /** A held first command is completed with an error and forgotten. */
    method AbortFirstFused(q: nat)
      requires FusedOk(Abs())
      modifies this
      ensures Abs() == AbortFirst(old(Abs()), q) && |ns| == |old(ns)|
      ensures firstFused == old(firstFused) - {q}
      ensures flight == if q in old(firstFused) then old(flight) - {old(firstFused)[q]} else old(flight)
    {
      assert q !in firstFused ==> firstFused - {q} == firstFused;
      if q in firstFused {
        RequestComplete(firstFused[q], true);
        firstFused := firstFused - {q};
      }
    }

    /** `nvmf_ctrlr_process_io_cmd` with `nvmf_ctrlr_process_io_fused_cmd`, and the completion
        of a request that it has finished. */
    method ProcessIoCmd(id: nat, o: Outcome)
      requires FusedOk(Abs()) && id in flight && WfReq(Abs(), flight[id]) && !Mgmt(flight[id])
      requires !IsHeldFirst(Abs(), id)
      modifies this
      ensures Abs() == DispatchIo(old(Abs()), id, o)
    {
      hide Completed;
      var r := flight[id];
      var q := r.qpair;
      var done := true;
      if o.EarlyFail? || r.fuse.InvalidFuse? {
      } else if r.fuse.First? {
        if q in firstFused || r.opcode == OPC_COMPARE {
          AbortFirstFused(q);
          assert firstFused[q := id] == old(firstFused)[q := id];
          firstFused := firstFused[q := id];
          done := false;
        }
      } else if r.fuse.Second? {
        if q in firstFused {
          if r.opcode != OPC_WRITE || o.Done? {
            AbortFirstFused(q);
          } else {
            firstFused := firstFused - {q};
            done := false;
          }
        }
      } else {
        AbortFirstFused(q);
        done := o.Done?;
      }
      if done {
        RequestComplete(id, if o.Done? && r.fuse.Single? then o.error else true);
      }
    }

    /** The first loop of a pause of the whole subsystem. */
    method PauseAllNamespaces()
      modifies this`ns
      ensures ns == SetPausing(old(ns), true)
    {
      for i := 0 to |ns|
        invariant |ns| == |old(ns)|
        invariant forall k :: 0 <= k < |ns| ==> ns[k] == if k < i then old(ns)[k].(pausing := true) else old(ns)[k]
      {
        ns := ns[i := ns[i].(pausing := true)];
      }
    }

    /** Its second loop. */
    method AnyOutstanding() returns (busy: bool)
      requires forall n :: 0 <= n < |ns| ==> ns[n].pausing
      ensures busy == NsBusy(ns)
    {
      for i := 0 to |ns|
        invariant forall k :: 0 <= k < i ==> ns[k].io <= 0
      {
        if ns[i].io > 0 {
          assert ns[i].pausing;
          return true;
        }
      }
      return false;
    }

    /** `nvmf_poll_group_pause_subsystem`. */
    method PauseSubsystem(nsid: nat, all: bool)
      modifies this
      ensures Abs() == PauseStep(old(Abs()), nsid, all)
    {
      requested := requested + 1;
      if state == Paused {
        signalled := signalled + 1;
        return;
      }
      state := Pausing;
      if all {
        PauseAllNamespaces();
      } else if 1 <= nsid <= |ns| {
        ns := ns[nsid - 1 := ns[nsid - 1].(pausing := true)];
      }
      var busy := mgmt > 0;
      if !busy {
        if all {
          busy := AnyOutstanding();
        } else if 1 <= nsid <= |ns| {
          busy := ns[nsid - 1].io > 0;
        }
      }
      if busy {
        callback := true;
        return;
      }
      state, signalled := Paused, signalled + 1;
    }
  }
}
