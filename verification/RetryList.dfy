/** Retrying I/O: the list sorted by deadline, its poller, and the retry limit, with the
    repository's patch that no path is ever expected to come back
    (nvme/bdev_nvme.c:992-1122, 1253-1358). */
module RetryList {
  import opened Options

  /** An I/O (by its `bdev_io` object) waiting for its `retry_ticks`. */
  datatype Entry = Entry(io: nat, ticks: nat)

  predicate Sorted(list: seq<Entry>) {
    forall i, j :: 0 <= i < j < |list| ==> list[i].ticks <= list[j].ticks
  }

  predicate Distinct(list: seq<Entry>) {
    forall i, j :: 0 <= i < j < |list| ==> list[i].io != list[j].io
  }

  ghost predicate Queued(list: seq<Entry>, io: nat) {
    exists i :: 0 <= i < |list| && list[i].io == io
  }

  /** The place of a new entry: behind every entry that is not later. */
  function Place(list: seq<Entry>, ticks: nat): (k: nat)
    ensures k <= |list|
  {
    if list == [] then 0
    else if list[|list| - 1].ticks <= ticks then |list|
    else Place(list[..|list| - 1], ticks)
  }

  function Insert(list: seq<Entry>, e: Entry): seq<Entry> {
    list[..Place(list, e.ticks)] + [e] + list[Place(list, e.ticks)..]
  }

  /** How many entries are due. */
  function Due(list: seq<Entry>, now: nat): (k: nat)
    ensures k <= |list|
  {
    if list == [] || list[0].ticks > now then 0 else 1 + Due(list[1..], now)
  }

  /** In a sorted list the place separates what is not later from what is later: order by
      deadline, first come first served on ties. */
  lemma {:induction false} PlaceSeparates(list: seq<Entry>, ticks: nat)
    requires Sorted(list)
    ensures forall i :: 0 <= i < |list| ==> (i < Place(list, ticks) <==> list[i].ticks <= ticks)
  {
    if list != [] && list[|list| - 1].ticks > ticks {
      PlaceSeparates(list[..|list| - 1], ticks);
    }
  }

  /** In a sorted list the due entries are a prefix, and they are all the due ones. */
  lemma {:induction false} DueSeparates(list: seq<Entry>, now: nat)
    requires Sorted(list)
    ensures forall i :: 0 <= i < |list| ==> (i < Due(list, now) <==> list[i].ticks <= now)
  {
    if list != [] && list[0].ticks <= now {
      DueSeparates(list[1..], now);
      forall i | 0 <= i < |list| ensures i < Due(list, now) <==> list[i].ticks <= now {
        if i > 0 {
          assert list[i] == list[1..][i - 1];
        }
      }
    }
  }

  lemma {:induction false} InsertKeeps(list: seq<Entry>, e: Entry)
    requires Sorted(list) && Distinct(list) && !Queued(list, e.io)
    ensures Sorted(Insert(list, e)) && Distinct(Insert(list, e)) && Insert(list, e) != []
    ensures forall io :: Queued(Insert(list, e), io) <==> Queued(list, io) || io == e.io
  {
    PlaceSeparates(list, e.ticks);
    var k := Place(list, e.ticks);
    var out := Insert(list, e);
    forall io | Queued(list, io) ensures Queued(out, io) {
      var i :| 0 <= i < |list| && list[i].io == io;
      assert out[if i < k then i else i + 1].io == io;
    }
    assert out[k].io == e.io;
  }

  /** What stays after dropping some entries keeps the order. */
  lemma SliceKeeps(list: seq<Entry>, a: nat, b: nat)
    requires Sorted(list) && Distinct(list) && a <= b <= |list|
    ensures Sorted(list[a..b]) && Distinct(list[a..b])
  {}

  // Time: ticks of an `hz` clock, and the poller's period in microseconds.

  const SEC_TO_USEC := 1000000

  /** SPDK turns a period in microseconds into ticks, rounding down. */
  function PeriodTicks(us: nat, hz: nat): nat {
    us * hz / SEC_TO_USEC
  }

  function RetryTicks(now: nat, delayMs: nat, hz: nat): nat {
    now + delayMs * hz / 1000
  }

  lemma RoundDownTwice(d: nat, hz: nat)
    requires hz > 0
    ensures PeriodTicks(d * SEC_TO_USEC / hz, hz) <= d
  {
    var us := d * SEC_TO_USEC / hz;
    assert us * hz <= d * SEC_TO_USEC;
  }

  lemma MsIsUs(delayMs: nat, hz: nat)
    ensures PeriodTicks(delayMs * 1000, hz) == delayMs * hz / 1000
  {
    var x := delayMs * hz;
    assert delayMs * 1000 * hz == 1000 * x;
    assert 1000 * x / 1000000 == x / 1000;
  }

  // One completion.

  /** The parts of a completion that decide about a retry. */
  datatype Cpl = Cpl(success: bool, dnr: bool, abortedByRequest: bool, pathError: bool,
                     abortedSqDeletion: bool, crdDelayMs: nat)

  /** `counted`: the I/O's `retry_count` went up. */
  datatype Verdict = Finish | Requeue(delayMs: nat, counted: bool)

  /** `any_io_path_may_become_available`, as patched. */
  const ANY_IO_PATH_MAY_BECOME_AVAILABLE := false

  /** `bdev_nvme_io_complete_nvme_status`; `available`: the path and its controller still
      are; `mayReturn`: the answer of `any_io_path_may_become_available`. */
  function Decide(limit: int, count: nat, cpl: Cpl, available: bool, mayReturn: bool): Verdict {
    if cpl.success then Finish
    else if cpl.dnr || cpl.abortedByRequest || (limit != -1 && count >= limit) then Finish
    else if cpl.pathError || cpl.abortedSqDeletion || !available then
      if !mayReturn then Finish else Requeue(0, false)
    else Requeue(cpl.crdDelayMs, true)
  }

  // The channel.

  /** `deadline`: when the registered poller fires. `counts` is the `retry_count` field of
      each `bdev_io` object, which outlives its uses; `base` is what a use began with.
      `queuedTimes` and `leftTimes` count a use's entries to and exits from the list. */
  datatype State = State(
    list: seq<Entry>, deadline: Option<nat>, running: set<nat>,
    counts: map<nat, nat>, base: map<nat, nat>, queuedTimes: map<nat, nat>, leftTimes: map<nat, nat>)

  datatype Event =
    | Submit(io: nat)
    | Complete(io: nat, cpl: Cpl, available: bool, now: nat)
    | Fail(io: nat)                // `bdev_nvme_io_complete`, also for -ENXIO
    | Poll(now: nat)               // `bdev_nvme_retry_ios`
    | AbortAll                     // `bdev_nvme_abort_retry_ios`
    | AbortOne(io: nat)            // `bdev_nvme_abort_retry_io`

  ghost predicate Enabled(s: State, e: Event) {
    match e
    case Submit(io) => io in s.counts && io !in s.running && !Queued(s.list, io)
    case Complete(io, _, _, _) => io in s.running
    case Fail(io) => io in s.running
    case Poll(_) => s.deadline.Some?
    case _ => true
  }

  /** `bdev_nvme_queue_retry_io`: the poller is set again only for a new head. */
  function Queue(list: seq<Entry>, deadline: Option<nat>, io: nat, delayMs: nat, now: nat, hz: nat): (seq<Entry>, Option<nat>) {
    var e := Entry(io, RetryTicks(now, delayMs, hz));
    (Insert(list, e), if Place(list, e.ticks) == 0 then Some(now + PeriodTicks(delayMs * 1000, hz)) else deadline)
  }

  /** The poller is set for the first entry left, if any. */
  function Rearm(list: seq<Entry>, now: nat, hz: nat): Option<nat>
    requires hz > 0 && (list != [] ==> list[0].ticks >= now)
  {
    if list == [] then None else Some(now + PeriodTicks((list[0].ticks - now) * SEC_TO_USEC / hz, hz))
  }

  function Ios(list: seq<Entry>): set<nat> {
    set e | e in list :: e.io
  }

  /** One entry of the list leaves it. */
  function Bump(m: map<nat, nat>, ios: set<nat>): map<nat, nat> {
    map io | io in m :: if io in ios then m[io] + 1 else m[io]
  }

  ghost function Find(list: seq<Entry>, io: nat): (k: nat)
    ensures k <= |list| && (k < |list| ==> list[k].io == io) && (forall i :: 0 <= i < k ==> list[i].io != io)
  {
    if list == [] || list[0].io == io then 0 else 1 + Find(list[1..], io)
  }

  ghost function Step(s: State, e: Event, limit: int, hz: nat): State
    requires Inv(s, limit) && Enabled(s, e) && hz > 0
  {
    match e
    case Submit(io) => s.(running := s.running + {io}, base := s.base[io := s.counts[io]],
                          queuedTimes := s.queuedTimes[io := 0], leftTimes := s.leftTimes[io := 0])
    case Complete(io, cpl, available, now) =>
      (match Decide(limit, s.counts[io], cpl, available, ANY_IO_PATH_MAY_BECOME_AVAILABLE)
       case Finish => Finished(s, io)
       case Requeue(delayMs, counted) => Requeued(s, io, delayMs, if counted then 1 else 0, now, hz))
    case Fail(io) => Finished(s, io)
    case Poll(now) =>
      var k := Due(s.list, now);
      DueSeparates(s.list, now);
      s.(list := s.list[k..], deadline := Rearm(s.list[k..], now, hz),
         running := s.running + Ios(s.list[..k]), leftTimes := Bump(s.leftTimes, Ios(s.list[..k])))
    case AbortAll => s.(list := [], deadline := None, leftTimes := Bump(s.leftTimes, Ios(s.list)))
    case AbortOne(io) =>
      var k := Find(s.list, io);
      if k == |s.list| then s
      else s.(list := s.list[..k] + s.list[k + 1..], leftTimes := Bump(s.leftTimes, {io}))
  }

  ghost function Finished(s: State, io: nat): State {
    s.(running := s.running - {io}, counts := s.counts[io := 0])
  }

  ghost function Requeued(s: State, io: nat, delayMs: nat, counted: nat, now: nat, hz: nat): State
    requires io in s.counts && io in s.queuedTimes
  {
    var q := Queue(s.list, s.deadline, io, delayMs, now, hz);
    s.(list := q.0, deadline := q.1, running := s.running - {io}, counts := s.counts[io := s.counts[io] + counted],
       queuedTimes := s.queuedTimes[io := s.queuedTimes[io] + 1])
  }

  // The invariant.

  /** Sorted, nobody twice, and whoever waits has a poller that is not late. */
  predicate ListOk(list: seq<Entry>, deadline: Option<nat>) {
    Sorted(list) && Distinct(list) && (list != [] ==> deadline.Some? && deadline.value <= list[0].ticks)
  }

  /** The books of one I/O object: every entry was left again unless it is queued now; the
      count says how often this use was queued and never passes the limit. */
  ghost predicate Booked(s: State, limit: int, io: nat)
    requires s.base.Keys == s.queuedTimes.Keys == s.leftTimes.Keys == s.counts.Keys && io in s.counts
  {
    && s.queuedTimes[io] == s.leftTimes[io] + (if Queued(s.list, io) then 1 else 0)
    && (limit != -1 ==> s.counts[io] <= limit && s.base[io] + s.queuedTimes[io] <= limit)
    && (io in s.running || Queued(s.list, io) ==> s.counts[io] == s.base[io] + s.queuedTimes[io])
    && !(io in s.running && Queued(s.list, io))
  }

  ghost predicate Inv(s: State, limit: int) {
    && limit >= -1 && ListOk(s.list, s.deadline)
    && s.base.Keys == s.queuedTimes.Keys == s.leftTimes.Keys == s.counts.Keys
    && s.running <= s.counts.Keys && (forall io :: Queued(s.list, io) ==> io in s.counts)
    && forall io :: io in s.counts ==> Booked(s, limit, io)
  }

  lemma {:induction false} QueueKeepsListOk(list: seq<Entry>, deadline: Option<nat>, io: nat, delayMs: nat, now: nat, hz: nat)
    requires ListOk(list, deadline) && !Queued(list, io)
    ensures var q := Queue(list, deadline, io, delayMs, now, hz);
            ListOk(q.0, q.1) && forall o :: Queued(q.0, o) <==> Queued(list, o) || o == io
  {
    var e := Entry(io, RetryTicks(now, delayMs, hz));
    InsertKeeps(list, e);
    MsIsUs(delayMs, hz);
  }

  lemma {:induction false} PollKeepsListOk(list: seq<Entry>, now: nat, hz: nat)
    requires Sorted(list) && Distinct(list) && hz > 0
    ensures var k := Due(list, now);
            && (k < |list| ==> list[k].ticks > now)
            && ListOk(list[k..], Rearm(list[k..], now, hz))
  {
    var k := Due(list, now);
    DueSeparates(list, now);
    SliceKeeps(list, k, |list|);
    if k < |list| {
      RoundDownTwice(list[k].ticks - now, hz);
    }
  }

  lemma {:induction false} SplitQueued(list: seq<Entry>, k: nat)
    requires Distinct(list) && k <= |list|
    ensures forall io :: Queued(list, io) <==> io in Ios(list[..k]) || Queued(list[k..], io)
    ensures forall io :: !(io in Ios(list[..k]) && Queued(list[k..], io))
  {
    forall io | Queued(list, io) ensures io in Ios(list[..k]) || Queued(list[k..], io) {
      var i :| 0 <= i < |list| && list[i].io == io;
      if i < k {
        assert list[i] in list[..k];
      } else {
        assert list[k..][i - k].io == io;
      }
    }
    forall io | Queued(list[k..], io) ensures Queued(list, io) && io !in Ios(list[..k]) {
      var i :| 0 <= i < |list[k..]| && list[k..][i].io == io;
      assert list[k + i].io == io;
    }
  }

  lemma {:induction false} RemoveKeeps(list: seq<Entry>, deadline: Option<nat>, k: nat)
    requires ListOk(list, deadline) && k < |list|
    ensures var out := list[..k] + list[k + 1..];
            ListOk(out, deadline) && forall io :: Queued(out, io) <==> Queued(list, io) && io != list[k].io
  {
    var out := list[..k] + list[k + 1..];
    forall io | Queued(list, io) && io != list[k].io ensures Queued(out, io) {
      var i :| 0 <= i < |list| && list[i].io == io;
      assert out[if i < k then i else i - 1].io == io;
    }
    forall i | 0 <= i < |out| ensures Queued(list, out[i].io) && out[i].io != list[k].io {
      assert out[i] == list[if i < k then i else i + 1];
    }
  }

  lemma {:induction false} RequeueKeepsInv(s: State, io: nat, delayMs: nat, now: nat, limit: int, hz: nat)
    requires Inv(s, limit) && io in s.running && hz > 0 && (limit != -1 ==> s.counts[io] < limit)
    ensures Inv(Requeued(s, io, delayMs, 1, now, hz), limit)
  {
    var s' := Requeued(s, io, delayMs, 1, now, hz);
    assert Booked(s, limit, io);
    QueueKeepsListOk(s.list, s.deadline, io, delayMs, now, hz);
    hide Queue, ListOk, Queued;
    forall o | o in s'.counts ensures Booked(s', limit, o) {
      assert Booked(s, limit, o);
    }
  }

  lemma {:induction false} FinishKeepsInv(s: State, io: nat, limit: int)
    requires Inv(s, limit) && io in s.running
    ensures Inv(Finished(s, io), limit)
  {
    hide ListOk, Queued;
    var s' := Finished(s, io);
    forall o | o in s'.counts ensures Booked(s', limit, o) {
      assert Booked(s, limit, o);
    }
  }

  lemma {:induction false} SubmitKeepsInv(s: State, io: nat, limit: int, hz: nat)
    requires Inv(s, limit) && Enabled(s, Submit(io)) && hz > 0
    ensures Inv(Step(s, Submit(io), limit, hz), limit)
  {
    hide ListOk, Queued;
    var s' := Step(s, Submit(io), limit, hz);
    forall o | o in s'.counts ensures Booked(s', limit, o) {
      assert Booked(s, limit, o);
    }
  }

  /** Some I/Os leave the list, `toRunning` of them to be submitted again. */
  lemma {:induction false} LeaveKeepsInv(s: State, s': State, limit: int, ios: set<nat>, toRunning: set<nat>)
    requires Inv(s, limit) && ListOk(s'.list, s'.deadline) && toRunning <= ios
    requires forall io :: Queued(s.list, io) <==> io in ios || Queued(s'.list, io)
    requires forall io :: !(io in ios && Queued(s'.list, io))
    requires s'.running == s.running + toRunning && s'.leftTimes == Bump(s.leftTimes, ios)
    requires s'.counts == s.counts && s'.base == s.base && s'.queuedTimes == s.queuedTimes
    ensures Inv(s', limit)
  {
    hide ListOk, Queued;
    forall o | o in s'.counts ensures Booked(s', limit, o) {
      assert Booked(s, limit, o);
    }
  }

  lemma {:induction false} PollKeepsInv(s: State, now: nat, limit: int, hz: nat)
    requires Inv(s, limit) && Enabled(s, Poll(now)) && hz > 0
    ensures Inv(Step(s, Poll(now), limit, hz), limit)
  {
    var k := Due(s.list, now);
    PollKeepsListOk(s.list, now, hz);
    SplitQueued(s.list, k);
    hide Booked, Queued, Rearm, Bump, ListOk;
    LeaveKeepsInv(s, Step(s, Poll(now), limit, hz), limit, Ios(s.list[..k]), Ios(s.list[..k]));
  }

  lemma {:induction false} AbortAllKeepsInv(s: State, limit: int, hz: nat)
    requires Inv(s, limit) && hz > 0
    ensures Inv(Step(s, AbortAll, limit, hz), limit)
  {
    SplitQueued(s.list, |s.list|);
    assert s.list[..|s.list|] == s.list;
    LeaveKeepsInv(s, Step(s, AbortAll, limit, hz), limit, Ios(s.list), {});
  }

  lemma {:induction false} AbortOneKeepsInv(s: State, io: nat, limit: int, hz: nat)
    requires Inv(s, limit) && hz > 0
    ensures Inv(Step(s, AbortOne(io), limit, hz), limit)
  {
    var k := Find(s.list, io);
    if k < |s.list| {
      assert Queued(s.list, io);
      RemoveKeeps(s.list, s.deadline, k);
      LeaveKeepsInv(s, Step(s, AbortOne(io), limit, hz), limit, {io}, {});
    }
  }

  lemma {:induction false} StepKeepsInv(s: State, e: Event, limit: int, hz: nat)
    requires Inv(s, limit) && Enabled(s, e) && hz > 0
    ensures Inv(Step(s, e, limit, hz), limit)
  {
    match e {
      case Submit(io) => SubmitKeepsInv(s, io, limit, hz);
      case Complete(io, cpl, available, now) =>
        var v := Decide(limit, s.counts[io], cpl, available, ANY_IO_PATH_MAY_BECOME_AVAILABLE);
        if v.Requeue? {
          RequeueKeepsInv(s, io, v.delayMs, now, limit, hz);
        } else {
          FinishKeepsInv(s, io, limit);
        }
      case Fail(io) => FinishKeepsInv(s, io, limit);
      case Poll(now) => PollKeepsInv(s, now, limit, hz);
      case AbortAll => AbortAllKeepsInv(s, limit, hz);
      case AbortOne(io) => AbortOneKeepsInv(s, io, limit, hz);
    }
  }

  // Runs.

  ghost predicate Admissible(s: State, es: seq<Event>, limit: int, hz: nat)
    requires hz > 0
    decreases |es|
  {
    es == [] || (Inv(s, limit) && Enabled(s, es[0]) && Admissible(Step(s, es[0], limit, hz), es[1..], limit, hz))
  }

  ghost function Run(s: State, es: seq<Event>, limit: int, hz: nat): State
    requires hz > 0 && Admissible(s, es, limit, hz)
    decreases |es|
  {
    if es == [] then s else Run(Step(s, es[0], limit, hz), es[1..], limit, hz)
  }

  lemma {:induction false} RunKeepsInv(s: State, es: seq<Event>, limit: int, hz: nat)
    requires hz > 0 && Inv(s, limit) && Admissible(s, es, limit, hz)
    ensures Inv(Run(s, es, limit, hz), limit)
    decreases |es|
  {
    if es != [] {
      StepKeepsInv(s, es[0], limit, hz);
      RunKeepsInv(Step(s, es[0], limit, hz), es[1..], limit, hz);
    }
  }

  /** Channels that have just been created, their I/O objects never used. */
  ghost predicate Initial(s: State) {
    && s.list == [] && s.running == {}
    && s.base.Keys == s.queuedTimes.Keys == s.leftTimes.Keys == s.counts.Keys
    && forall io :: io in s.counts ==> s.counts[io] == s.base[io] == s.queuedTimes[io] == s.leftTimes[io] == 0
  }

  /** Over every run of a fresh channel: the list is sorted and nobody on it twice, who waits
      has a poller that is not late, each I/O has left the list as often as it entered it
      unless it is there now, and none has entered it more than `limit` times. */
  lemma {:induction false} RetriesBoundedAndConserved(s: State, es: seq<Event>, limit: int, hz: nat)
    requires hz > 0 && limit >= -1 && Initial(s) && Admissible(s, es, limit, hz)
    ensures var t := Run(s, es, limit, hz);
            && Sorted(t.list) && Distinct(t.list)
            && (t.list != [] ==> t.deadline.Some? && t.deadline.value <= t.list[0].ticks)
            && forall io :: io in t.counts ==>
                 && io in t.queuedTimes && io in t.leftTimes
                 && t.queuedTimes[io] == t.leftTimes[io] + (if Queued(t.list, io) then 1 else 0)
                 && (limit != -1 ==> t.queuedTimes[io] <= limit)
  {
    forall io | io in s.counts ensures Booked(s, limit, io) {}
    RunKeepsInv(s, es, limit, hz);
    var t := Run(s, es, limit, hz);
    hide Run, Queued;
    forall io | io in t.counts
      ensures io in t.queuedTimes && io in t.leftTimes
      ensures t.queuedTimes[io] == t.leftTimes[io] + (if Queued(t.list, io) then 1 else 0)
      ensures limit != -1 ==> t.queuedTimes[io] <= limit
    {
      assert Booked(t, limit, io);
    }
  }

  /** A poll submits exactly the due I/Os again, none of them early. */
  lemma {:induction false} PollTakesExactlyDue(s: State, now: nat, limit: int, hz: nat, i: nat)
    requires Inv(s, limit) && Enabled(s, Poll(now)) && hz > 0 && i < |s.list|
    ensures s.list[i].io !in s.running
    ensures s.list[i].io in Step(s, Poll(now), limit, hz).running <==> s.list[i].ticks <= now
  {
    var k := Due(s.list, now);
    DueSeparates(s.list, now);
    SplitQueued(s.list, k);
    assert Queued(s.list, s.list[i].io) && Booked(s, limit, s.list[i].io);
    if i < k {
      assert s.list[i] in s.list[..k];
    } else {
      assert s.list[k..][i - k] == s.list[i];
      assert Queued(s.list[k..], s.list[i].io);
    }
  }

  /** Only the patched test makes every requeue count against the limit: with paths that
      may return, an I/O can be requeued for path errors without end. */
  lemma {:induction false} EveryRequeueCountsIffPatched(limit: int, count: nat, mayReturn: bool)
    requires limit == -1 || count < limit
    ensures (forall cpl: Cpl, available: bool :: Decide(limit, count, cpl, available, mayReturn).Requeue?
               ==> Decide(limit, count, cpl, available, mayReturn).counted)
            <==> !mayReturn
  {
    var lost := Cpl(false, false, false, true, false, 0);
    assert mayReturn ==> Decide(limit, count, lost, true, mayReturn) == Requeue(0, false);
  }

  /** How often `n` retryable completions in a row requeue an I/O. */
  function Requeues(limit: nat, count: nat, n: nat): nat
    decreases n
  {
    if n == 0 || count >= limit then 0 else 1 + Requeues(limit, count + 1, n - 1)
  }

  lemma {:induction false} RequeuesAre(limit: nat, count: nat, n: nat)
    ensures Requeues(limit, count, n) == if count >= limit then 0 else if n <= limit - count then n else limit - count
    decreases n
  {
    if n > 0 && count < limit {
      RequeuesAre(limit, count + 1, n - 1);
    }
  }

  // What a completion leads to.

  /** A completion that may be retried: it failed, not for good and not by request, with retries
      left, on a path and controller that are still there. */
  predicate Retryable(limit: int, count: nat, cpl: Cpl, available: bool) {
    && !cpl.success && !cpl.dnr && !cpl.abortedByRequest && (limit == -1 || count < limit)
    && !cpl.pathError && !cpl.abortedSqDeletion && available
  }

  /** A completion queues its I/O again if and only if it may be retried, due exactly the
      controller's delay later, with one more retry counted; any other ends it, its count
      cleared. No other I/O is touched. */
  lemma {:induction false} CompletionLeadsTo(s: State, io: nat, cpl: Cpl, available: bool, now: nat, limit: int, hz: nat)
    requires Inv(s, limit) && Enabled(s, Complete(io, cpl, available, now)) && hz > 0
    ensures io in s.counts && !Queued(s.list, io)
    ensures var t := Step(s, Complete(io, cpl, available, now), limit, hz);
            && io !in t.running && io in t.counts
            && (if Retryable(limit, s.counts[io], cpl, available)
                then Entry(io, now + cpl.crdDelayMs * hz / 1000) in t.list && t.counts[io] == s.counts[io] + 1
                else !Queued(t.list, io) && t.list == s.list && t.counts[io] == 0)
            && (forall o :: o != io ==> (Queued(t.list, o) <==> Queued(s.list, o)) && (o in t.running <==> o in s.running))
  {
    assert Booked(s, limit, io);
    if Retryable(limit, s.counts[io], cpl, available) {
      QueueKeepsListOk(s.list, s.deadline, io, cpl.crdDelayMs, now, hz);
      var e := Entry(io, RetryTicks(now, cpl.crdDelayMs, hz));
      assert Insert(s.list, e)[Place(s.list, e.ticks)] == e;
    }
    hide Inv, Booked, Queued;
  }

  /** Over every run, an I/O whose completion is not retried is neither running nor queued until
      it is submitted anew. */
  lemma {:induction false} FinishedUntilSubmitted(s: State, e: Event, es: seq<Event>, limit: int, hz: nat)
    requires hz > 0 && Inv(s, limit) && Enabled(s, e) && e.Complete? && e.io in s.counts
    requires !Retryable(limit, s.counts[e.io], e.cpl, e.available)
    requires Admissible(Step(s, e, limit, hz), es, limit, hz) && Submit(e.io) !in es
    ensures var t := Run(Step(s, e, limit, hz), es, limit, hz); e.io !in t.running && !Queued(t.list, e.io)
  {
    CompletionLeadsTo(s, e.io, e.cpl, e.available, e.now, limit, hz);
    StepKeepsInv(s, e, limit, hz);
    IdleRun(Step(s, e, limit, hz), es, e.io, limit, hz);
    hide Step, Run, Inv;
  }

  /** A submission runs its I/O, with the retries its object has left; an internal failure ends
      it like a completion. */
  lemma {:induction false} SubmitAndFail(s: State, io: nat, limit: int, hz: nat)
    requires Inv(s, limit) && hz > 0
    ensures Enabled(s, Submit(io)) ==>
              var t := Step(s, Submit(io), limit, hz);
              t.running == s.running + {io} && t.list == s.list && t.counts == s.counts && io in t.base && t.base[io] == s.counts[io]
    ensures Enabled(s, Fail(io)) ==>
              var t := Step(s, Fail(io), limit, hz);
              t.running == s.running - {io} && t.list == s.list && io in t.counts && t.counts[io] == 0
  {}

  /** An abort of all queued I/Os empties the list, one of a single I/O takes just that out. */
  lemma {:induction false} AbortsLeave(s: State, io: nat, o: nat, limit: int, hz: nat)
    requires Inv(s, limit) && hz > 0
    ensures Step(s, AbortAll, limit, hz).list == [] && Step(s, AbortAll, limit, hz).deadline == None
    ensures var t := Step(s, AbortOne(io), limit, hz);
            && (Queued(t.list, o) <==> Queued(s.list, o) && o != io)
            && t.running == s.running && t.deadline == s.deadline
  {
    var k := Find(s.list, io);
    if k < |s.list| {
      RemoveKeeps(s.list, s.deadline, k);
    } else {
      assert !Queued(s.list, io);
    }
    hide Inv, Booked;
  }

  // What a use of an I/O object leaves to the next one.

  ghost predicate InUse(s: State, io: nat) {
    io in s.running || Queued(s.list, io)
  }

  ghost predicate Aborts(e: Event, io: nat) {
    e == AbortAll || e == AbortOne(io)
  }

  /** A use that ends by an abort on the list leaves its count behind, any other clears it. */
  lemma {:induction false} EndedCount(s: State, e: Event, io: nat, limit: int, hz: nat)
    requires Inv(s, limit) && Enabled(s, e) && hz > 0 && InUse(s, io) && !InUse(Step(s, e, limit, hz), io)
    ensures io in s.counts && io in Step(s, e, limit, hz).counts
    ensures Step(s, e, limit, hz).counts[io] == if Aborts(e, io) then s.counts[io] else 0
  {
    assert Booked(s, limit, io);
    match e {
      case Complete(o, cpl, available, now) =>
        var v := Decide(limit, s.counts[o], cpl, available, ANY_IO_PATH_MAY_BECOME_AVAILABLE);
        if v.Requeue? {
          assert Booked(s, limit, o);
          QueueKeepsListOk(s.list, s.deadline, o, v.delayMs, now, hz);
        }
      case Poll(now) => SplitQueued(s.list, Due(s.list, now));
      case AbortOne(o) =>
        var k := Find(s.list, o);
        if k < |s.list| {
          RemoveKeeps(s.list, s.deadline, k);
        }
      case _ =>
    }
    hide Inv, Booked, Queue, Due, Rearm, Find;
  }

  lemma {:induction false} IdleCount(s: State, e: Event, io: nat, limit: int, hz: nat)
    requires Inv(s, limit) && Enabled(s, e) && hz > 0 && io in s.counts && !InUse(s, io) && e != Submit(io)
    ensures var s' := Step(s, e, limit, hz);
            io in s'.counts && s'.counts[io] == s.counts[io] && !InUse(s', io)
  {
    match e {
      case Complete(o, cpl, available, now) =>
        var v := Decide(limit, s.counts[o], cpl, available, ANY_IO_PATH_MAY_BECOME_AVAILABLE);
        if v.Requeue? {
          assert Booked(s, limit, o);
          QueueKeepsListOk(s.list, s.deadline, o, v.delayMs, now, hz);
        }
      case Poll(now) => SplitQueued(s.list, Due(s.list, now));
      case AbortOne(o) =>
        var k := Find(s.list, o);
        if k < |s.list| {
          RemoveKeeps(s.list, s.deadline, k);
        }
      case _ =>
    }
    hide Inv, Booked, Queue, Due, Rearm, Find;
  }

  lemma {:induction false} IdleRun(s: State, es: seq<Event>, io: nat, limit: int, hz: nat)
    requires hz > 0 && Inv(s, limit) && Admissible(s, es, limit, hz) && io in s.counts && !InUse(s, io) && Submit(io) !in es
    ensures var t := Run(s, es, limit, hz);
            Inv(t, limit) && io in t.counts && t.counts[io] == s.counts[io] && !InUse(t, io)
    decreases |es|
  {
    if es != [] {
      StepKeepsInv(s, es[0], limit, hz);
      IdleCount(s, es[0], io, limit, hz);
      hide Step, Inv, InUse;
      IdleRun(Step(s, es[0], limit, hz), es[1..], io, limit, hz);
    }
  }

  /** However a use of an I/O object ends and whatever happens until its next use, that one
      has all its retries if and only if the first did not leave the list by being aborted,
      alone or with all others, after some retry had been counted. */
  lemma {:induction false} NextUseHasAllRetriesIff(s: State, e: Event, es: seq<Event>, io: nat, limit: nat, hz: nat)
    requires hz > 0 && Inv(s, limit) && Enabled(s, e) && InUse(s, io) && !InUse(Step(s, e, limit, hz), io)
    requires Admissible(Step(s, e, limit, hz), es, limit, hz) && Submit(io) !in es
    ensures io in s.counts
    ensures var t := Run(Step(s, e, limit, hz), es, limit, hz);
            && Inv(t, limit) && Enabled(t, Submit(io))
            && var left := Requeues(limit, Step(t, Submit(io), limit, hz).base[io], limit);
               && (left == limit <==> !(Aborts(e, io) && s.counts[io] > 0))
               && (Aborts(e, io) ==> left == limit - s.counts[io])
  {
    var s' := Step(s, e, limit, hz);
    StepKeepsInv(s, e, limit, hz);
    EndedCount(s, e, io, limit, hz);
    IdleRun(s', es, io, limit, hz);
    assert Booked(s, limit, io);
    RequeuesAre(limit, s'.counts[io], limit);
    hide Booked, Queued;
  }

  /** One retry, then an abort of the whole list or of this I/O: the next use has one less. */
  lemma {:induction false} AbortedRunShortensNextUse(s: State, io: nat, now: nat, all: bool, limit: nat, hz: nat)
    requires hz > 0 && limit > 0 && Initial(s) && io in s.counts
    ensures var retryable := Cpl(false, false, false, false, false, 0);
            var es := [Submit(io), Complete(io, retryable, true, now), if all then AbortAll else AbortOne(io), Submit(io)];
            Admissible(s, es, limit, hz) && io in Run(s, es, limit, hz).base && Run(s, es, limit, hz).base[io] == 1
  {
    var retryable := Cpl(false, false, false, false, false, 0);
    var a, e1, e2 := if all then AbortAll else AbortOne(io), Submit(io), Complete(io, retryable, true, now);
    forall o | o in s.counts ensures Booked(s, limit, o) {}
    StepKeepsInv(s, e1, limit, hz);
    var s1 := Step(s, e1, limit, hz);
    assert io in s1.running && s1.list == [] && s1.counts[io] == 0 && Enabled(s, e1);
    hide Step, Inv, Enabled;
    RetryThenAbort(s1, io, now, a, limit, hz);
    RunOne(s, e1, [e2, a, e1], limit, hz);
    assert [e1] + [e2, a, e1] == [e1, e2, a, e1];
  }

  lemma {:induction false} RetryThenAbort(s: State, io: nat, now: nat, a: Event, limit: int, hz: nat)
    requires hz > 0 && limit > 0 && Inv(s, limit) && io in s.running && s.list == [] && io in s.counts && s.counts[io] == 0
    requires Aborts(a, io)
    ensures var es := [Complete(io, Cpl(false, false, false, false, false, 0), true, now), a, Submit(io)];
            Admissible(s, es, limit, hz) && io in Run(s, es, limit, hz).base && Run(s, es, limit, hz).base[io] == 1
  {
    var e := Complete(io, Cpl(false, false, false, false, false, 0), true, now);
    StepKeepsInv(s, e, limit, hz);
    var s1 := Step(s, e, limit, hz);
    assert s1.list == [Entry(io, RetryTicks(now, 0, hz))] && s1.counts[io] == 1 && Enabled(s, e);
    hide Step, Inv, Enabled, Queued;
    AbortOnlyEntry(s1, io, a, limit, hz);
    RunOne(s, e, [a, Submit(io)], limit, hz);
    assert [e] + [a, Submit(io)] == [e, a, Submit(io)];
  }

  lemma {:induction false} AbortOnlyEntry(s: State, io: nat, a: Event, limit: int, hz: nat)
    requires hz > 0 && Inv(s, limit) && |s.list| == 1 && s.list[0].io == io && io in s.counts && s.counts[io] == 1
    requires Aborts(a, io)
    ensures var es := [a, Submit(io)];
            Admissible(s, es, limit, hz) && io in Run(s, es, limit, hz).base && Run(s, es, limit, hz).base[io] == 1
  {
    assert Booked(s, limit, io) && Queued(s.list, io);
    StepKeepsInv(s, a, limit, hz);
    var s1 := Step(s, a, limit, hz);
    assert s1.list == [] && s1.counts[io] == 1;
    assert Enabled(s, a) && Enabled(s1, Submit(io));
    StepKeepsInv(s1, Submit(io), limit, hz);
    var s2 := Step(s1, Submit(io), limit, hz);
    hide Step, Inv, Enabled;
    assert Admissible(s2, [], limit, hz) && Run(s2, [], limit, hz) == s2;
    RunOne(s1, Submit(io), [], limit, hz);
    RunOne(s, a, [Submit(io)], limit, hz);
    assert [a] + [Submit(io)] == [a, Submit(io)];
  }

  lemma {:induction false} RunOne(s: State, e: Event, es: seq<Event>, limit: int, hz: nat)
    requires hz > 0 && Inv(s, limit) && Enabled(s, e) && Admissible(Step(s, e, limit, hz), es, limit, hz)
    ensures Admissible(s, [e] + es, limit, hz) && Run(s, [e] + es, limit, hz) == Run(Step(s, e, limit, hz), es, limit, hz)
  {
    assert ([e] + es)[1..] == es;
  }

  // The code itself.

  class NvmeBdevChannel {
    var retryIoList: seq<Entry>
    var retryIoPoller: Option<nat>

    /** `bdev_nvme_io_complete_nvme_status`, the status and the options as arguments, down to the
        queueing: whether the I/O is completed, and its new `retry_count`. */
    method IoCompleteNvmeStatus(io: nat, cpl: Cpl, available: bool, bdevRetryCount: int, retryCount: nat, now: nat, hz: nat)
      returns (completes: bool, retryCount': nat)
      modifies this
      ensures match Decide(bdevRetryCount, retryCount, cpl, available, ANY_IO_PATH_MAY_BECOME_AVAILABLE)
              case Finish =>
                completes && retryCount' == 0 && retryIoList == old(retryIoList) && retryIoPoller == old(retryIoPoller)
              case Requeue(delayMs, counted) =>
                && !completes && retryCount' == retryCount + (if counted then 1 else 0)
                && (retryIoList, retryIoPoller) == Queue(old(retryIoList), old(retryIoPoller), io, delayMs, now, hz)
      ensures completes <==> !Retryable(bdevRetryCount, retryCount, cpl, available)
    {
      if cpl.success {
        return true, 0;
      }
      if cpl.dnr || cpl.abortedByRequest || (bdevRetryCount != -1 && retryCount >= bdevRetryCount) {
        return true, 0;
      }
      var delayMs := 0;
      retryCount' := retryCount;
      if cpl.pathError || cpl.abortedSqDeletion || !available {
        if !ANY_IO_PATH_MAY_BECOME_AVAILABLE {
          return true, 0;
        }
      } else {
        retryCount' := retryCount' + 1;
        delayMs := cpl.crdDelayMs;
      }
      QueueRetryIo(io, delayMs, now, hz);
      completes := false;
    }

    /** `bdev_nvme_queue_retry_io`. */
    method QueueRetryIo(io: nat, delayMs: nat, now: nat, hz: nat)
      modifies this
      ensures retryIoList == Queue(old(retryIoList), old(retryIoPoller), io, delayMs, now, hz).0
      ensures retryIoPoller == Queue(old(retryIoList), old(retryIoPoller), io, delayMs, now, hz).1
    {
      hide RetryTicks, PeriodTicks;
      var bio := Entry(io, RetryTicks(now, delayMs, hz));
      var i := |retryIoList|;
      assert retryIoList[..i] == retryIoList;
      while i > 0
        invariant 0 <= i <= |retryIoList| && Place(retryIoList, bio.ticks) == Place(retryIoList[..i], bio.ticks)
        invariant retryIoList == old(retryIoList) && retryIoPoller == old(retryIoPoller)
      {
        if retryIoList[i - 1].ticks <= bio.ticks {
          assert retryIoList[..i][i - 1] == retryIoList[i - 1];
          assert Place(retryIoList, bio.ticks) == i;
          retryIoList := retryIoList[..i] + [bio] + retryIoList[i..];
          return;
        }
        assert retryIoList[..i][..i - 1] == retryIoList[..i - 1];
        i := i - 1;
      }
      assert Place(retryIoList, bio.ticks) == 0;
      assert retryIoList[..0] == [] && retryIoList[0..] == retryIoList;
      retryIoList := [bio] + retryIoList;
      retryIoPoller := Some(now + PeriodTicks(delayMs * 1000, hz));
    }

    /** `bdev_nvme_retry_ios`: what it submits again, in order. */
    method RetryIos(now: nat, hz: nat) returns (resubmitted: seq<Entry>)
      requires hz > 0
      modifies this
      ensures var k := Due(old(retryIoList), now);
              && resubmitted == old(retryIoList)[..k] && retryIoList == old(retryIoList)[k..]
              && (retryIoList != [] ==> retryIoList[0].ticks > now)
              && retryIoPoller == Rearm(retryIoList, now, hz)
    {
      resubmitted := [];
      while retryIoList != [] && retryIoList[0].ticks <= now
        invariant old(retryIoList) == resubmitted + retryIoList
        invariant Due(old(retryIoList), now) == |resubmitted| + Due(retryIoList, now)
        decreases |retryIoList|
      {
        resubmitted := resubmitted + [retryIoList[0]];
        retryIoList := retryIoList[1..];
      }
      retryIoPoller := None;
      if retryIoList != [] {
        var delayUs := (retryIoList[0].ticks - now) * SEC_TO_USEC / hz;
        retryIoPoller := Some(now + PeriodTicks(delayUs, hz));
      }
    }

    /** `bdev_nvme_abort_retry_ios`. */
    method AbortRetryIos() returns (aborted: seq<Entry>)
      modifies this
      ensures retryIoList == [] && retryIoPoller == None && aborted == old(retryIoList)
    {
      aborted := [];
      while retryIoList != []
        invariant aborted + retryIoList == old(retryIoList)
        decreases |retryIoList|
      {
        aborted := aborted + [retryIoList[0]];
        retryIoList := retryIoList[1..];
      }
      retryIoPoller := None;
    }

    /** `bdev_nvme_abort_retry_io`: the poller stays as it is. */
    method AbortRetryIo(io: nat) returns (found: bool)
      modifies this`retryIoList
      ensures var k := Find(old(retryIoList), io);
              && found == (k < |old(retryIoList)|)
              && retryIoList == if found then old(retryIoList)[..k] + old(retryIoList)[k + 1..] else old(retryIoList)
    {
      for i := 0 to |retryIoList|
        invariant Find(retryIoList, io) == i + Find(retryIoList[i..], io)
        invariant retryIoList == old(retryIoList)
      {
        if retryIoList[i].io == io {
          retryIoList := retryIoList[..i] + retryIoList[i + 1..];
          return true;
        }
        assert retryIoList[i..][1..] == retryIoList[i + 1..];
      }
      return false;
    }
  }
}
