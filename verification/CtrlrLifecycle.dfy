/** Life of one host controller: references, reset, delayed reconnect and destruction.
    Each event is one section under the controller's mutex, or one asynchronous completion
    (nvme/bdev_nvme.c:518-561, 1383-1443, 1709-2001, 2150-2177, 4166-4234, 4829-4868). */
module CtrlrLifecycle {

  const ENXIO: int := 6
  const EBUSY: int := 16

  /** Who has the driver's one connection operation: a reset that is disconnecting or
      reconnecting, or a delayed reconnect, whose `disconnected_cb` is the timer starter
      (`Leaving`) or whose timer runs (`Waiting`). The driver refuses another disconnect then. */
  datatype Link = Free | Disconnecting | Reconnecting | Leaving | Waiting

  /** What runs on the controller's thread. `started`: resets admitted that have not disconnected yet; `finishing`, `finishingOk`:
      calls of `bdev_nvme_reset_complete` walking the channels, whose callback is
      `_bdev_nvme_reset_complete`; `decided`: delayed reconnects that were chosen, the mutex
      being dropped, and have not disconnected yet. */
  datatype Work = Work(started: nat, finishing: nat, finishingOk: nat, decided: nat, link: Link)

  datatype State = State(
    destruct: bool,
    creationHeld: bool,
    ref: nat,
    resetting: bool,
    delayed: bool,
    updating: bool,
    clearing: bool,
    failed: bool,
    work: Work,
    reconnectDelay: nat,
    lossTimeout: int,
    unregistered: nat)

  /** `nvme_ctrlr_can_be_unregistered`. */
  predicate CanBeUnregistered(s: State) {
    s.destruct && s.ref == 0 && !s.resetting && !s.updating && !s.clearing
  }

  /** `nvme_ctrlr_is_available`. */
  predicate IsAvailable(s: State) {
    !s.destruct && !s.failed && !s.resetting && !s.delayed
  }

  /** The tail shared by the four places that may find the last blocker gone. */
  function Unregister(s: State): State {
    if CanBeUnregistered(s) then s.(unregistered := s.unregistered + 1) else s
  }

  /** The return value of `bdev_nvme_reset`. */
  function ResetResult(s: State): int {
    if s.destruct then -ENXIO else if s.resetting || s.delayed then -EBUSY else 0
  }

  /** `bdev_nvme_check_ctrlr_loss_timeout` after `elapsed` seconds. */
  predicate LossTimedOut(s: State, elapsed: int) {
    s.lossTimeout != 0 && s.lossTimeout != -1 && elapsed >= s.lossTimeout
  }

  datatype OpAfterReset = OpNone | OpCompletePendingDestruct | OpDestruct | OpDelayedReconnect

  /** `bdev_nvme_check_op_after_reset`, in a state whose `resetting` is already cleared. */
  function CheckOpAfterReset(s: State, success: bool, elapsed: int): OpAfterReset {
    if CanBeUnregistered(s) then OpCompletePendingDestruct
    else if success || s.reconnectDelay == 0 then OpNone
    else if LossTimedOut(s, elapsed) then OpDestruct
    else OpDelayedReconnect
  }

  function Chosen(w: Work): Work {
    w.(decided := w.decided + 1)
  }

  /** `_bdev_nvme_reset_complete`. */
  function CompleteReset(s: State, success: bool, elapsed: int): State {
    var s' := s.(resetting := false);
    match CheckOpAfterReset(s', success, elapsed)
    case OpNone => s'
    case OpCompletePendingDestruct => Unregister(s')
    case OpDestruct => s'.(destruct := true)
    case OpDelayedReconnect => s'.(work := Chosen(s.work))
  }

  /** `bdev_nvme_reset_complete`. */
  function BeginComplete(w: Work, success: bool): Work {
    if success then w.(finishingOk := w.finishingOk + 1) else w.(finishing := w.finishing + 1)
  }

  /** Its callback is taken off the list. */
  function EndComplete(w: Work, success: bool): Work
    requires if success then w.finishingOk > 0 else w.finishing > 0
  {
    if success then w.(finishingOk := w.finishingOk - 1) else w.(finishing := w.finishing - 1)
  }

  /** `nvme_ctrlr_disconnect` for a reset. */
  function DisconnectForReset(w: Work, accepted: bool): Work
    requires w.started > 0
  {
    var w' := w.(started := w.started - 1);
    if accepted then w'.(link := Disconnecting) else BeginComplete(w', false)
  }

  /** The same for a delayed reconnect. */
  function DisconnectForDelay(w: Work, accepted: bool): Work
    requires w.decided > 0
  {
    var w' := w.(decided := w.decided - 1);
    if accepted then w'.(link := Leaving) else BeginComplete(w', false)
  }

  datatype Event =
    | Acquire                          // a qpair is created or a namespace populated
    | Release                          // `nvme_ctrlr_release` for one of those
    | Delete                           // `_bdev_nvme_delete`
    | ReleaseCreation                  // the release in `_nvme_ctrlr_destruct`
    | Reset                            // `bdev_nvme_reset`, or the reset of `bdev_nvme_failover`
    | DestroyedQpairs(accepted: bool)  // `nvme_ctrlr_disconnect` inside a reset
    | Disconnected                     // adminq poll runs `disconnected_cb` of a reset
    | ReconnectPoll(done: bool, ok: bool)
    | ResetDone(success: bool, elapsed: int) // `_bdev_nvme_reset_complete`
    | DelayDisconnect(accepted: bool)  // `nvme_ctrlr_disconnect` for the delayed reconnect
    | DelayDisconnected                // adminq poll runs the timer starter
    | DelayExpired                     // `bdev_nvme_reconnect_delay_timer_expired`
    | ReadAna                          // `nvme_ctrlr_read_ana_log_page`
    | AnaDone                          // `nvme_ctrlr_read_ana_log_page_done`
    | ClearCaches                      // `bdev_nvme_clear_io_path_caches`
    | ClearDone                        // `bdev_nvme_clear_io_path_caches_done`
    | SetFailed(value: bool)

  /** When an event can happen at all. */
  predicate Enabled(s: State, e: Event) {
    match e
    case Acquire => s.ref > 0
    case Release => s.ref > (if s.creationHeld then 1 else 0)
    case ReleaseCreation => s.destruct && s.creationHeld && s.ref > 0
    case DestroyedQpairs(accepted) => s.work.started > 0 && (accepted ==> s.work.link == Free)
    case Disconnected => s.work.link == Disconnecting
    case ReconnectPoll(_, _) => s.work.link == Reconnecting
    case ResetDone(success, _) => if success then s.work.finishingOk > 0 else s.work.finishing > 0
    case DelayDisconnect(accepted) => s.work.decided > 0 && (accepted ==> s.work.link == Free)
    case DelayDisconnected => s.work.link == Leaving
    case DelayExpired => s.work.link == Waiting
    case AnaDone => s.updating
    case ClearDone => s.clearing
    case _ => true
  }

  function Step(s: State, e: Event): State
    requires Enabled(s, e)
  {
    match e
    case Acquire => s.(ref := s.ref + 1)
    case Release => Unregister(s.(ref := s.ref - 1))
    case Delete => s.(destruct := true)
    case ReleaseCreation => Unregister(s.(ref := s.ref - 1, creationHeld := false))
    case Reset => if ResetResult(s) != 0 then s else s.(resetting := true, work := s.work.(started := s.work.started + 1))
    case DestroyedQpairs(accepted) => s.(work := DisconnectForReset(s.work, accepted))
    case Disconnected => s.(work := s.work.(link := Reconnecting))
    case ReconnectPoll(done, ok) =>
      s.(lossTimeout := 0, work := if done then BeginComplete(s.work.(link := Free), ok) else s.work)
    case ResetDone(success, elapsed) => CompleteReset(s.(work := EndComplete(s.work, success)), success, elapsed)
    case DelayDisconnect(accepted) => s.(work := DisconnectForDelay(s.work, accepted))
    case DelayDisconnected => s.(work := s.work.(link := Waiting), delayed := true)
    case DelayExpired =>
      if s.destruct then s.(work := s.work.(link := Free), delayed := false)
      else s.(work := s.work.(link := Reconnecting), delayed := false, resetting := true)
    case ReadAna => if IsAvailable(s) && !s.updating then s.(updating := true) else s
    case AnaDone => Unregister(s.(updating := false))
    case ClearCaches => if IsAvailable(s) && !s.clearing then s.(clearing := true) else s
    case ClearDone => Unregister(s.(clearing := false))
    case SetFailed(value) => s.(failed := value)
  }

  predicate Possible(s: State, es: seq<Event>)
    decreases |es|
  {
    es == [] || (Enabled(s, es[0]) && Possible(Step(s, es[0]), es[1..]))
  }

  function Run(s: State, es: seq<Event>): State
    requires Possible(s, es)
    decreases |es|
  {
    if es == [] then s else Run(Step(s, es[0]), es[1..])
  }

  /** A freshly created controller. */
  predicate Init(s: State) {
    && !s.destruct && s.creationHeld && s.ref == 1 && !s.resetting && !s.delayed && !s.updating && !s.clearing
    && s.work == Work(0, 0, 0, 0, Free) && s.unregistered == 0
  }

  /** Resets that have not completed. */
  function Resets(w: Work): nat {
    w.started + w.finishing + w.finishingOk + (if w.link == Disconnecting || w.link == Reconnecting then 1 else 0)
  }

  /** Delayed reconnects that have not come to a reset. */
  function Delays(w: Work): nat {
    w.decided + (if w.link == Leaving || w.link == Waiting then 1 else 0)
  }

  /** Resets whose completion the flag `resetting` does not announce. */
  function Surplus(s: State): int {
    Resets(s.work) - (if s.resetting then 1 else 0)
  }

  /** What every run keeps: a controller is never unregistered early. */
  predicate Inv(s: State) {
    && (s.delayed <==> s.work.link == Waiting)
    && (s.creationHeld ==> s.ref > 0)
    && (!s.destruct ==> s.creationHeld)
    && Surplus(s) >= 0
    && (s.unregistered > 0 <==> CanBeUnregistered(s))
  }

  lemma InitInv(s: State)
    requires Init(s)
    ensures Inv(s) && Apart(s)
  {}

  // The number of unregistrations, over all runs.

  /** A reset completion that finds the controller unregistered already. */
  predicate Late(s: State, e: Event) {
    e.ResetDone? && CanBeUnregistered(s)
  }

  /** `s'` was unregistered once more than `s` if its last blocker went or `late` tells so. */
  predicate Counts(s: State, s': State, late: bool) {
    s'.unregistered == s.unregistered + (if (!CanBeUnregistered(s) && CanBeUnregistered(s')) || late then 1 else 0)
  }

  /** A reset completion seen from outside. */
  lemma {:induction false} ResetDoneIs(s: State, success: bool, elapsed: int)
    requires Enabled(s, ResetDone(success, elapsed))
    ensures var s' := Step(s, ResetDone(success, elapsed));
            && !s'.resetting && s'.ref == s.ref && s'.updating == s.updating && s'.clearing == s.clearing
            && s'.creationHeld == s.creationHeld && (s.destruct ==> s'.destruct)
            && (s'.work == EndComplete(s.work, success) || s'.work == Chosen(EndComplete(s.work, success)))
            && s'.delayed == s.delayed
            && s'.unregistered == s.unregistered + (if CanBeUnregistered(s.(resetting := false)) then 1 else 0)
            && (CanBeUnregistered(s.(resetting := false)) ==> s'.work == EndComplete(s.work, success))
  {
    hide LossTimedOut;
  }

  /** In every step the count goes up exactly when the last blocker goes, or by a late
      completion. */
  lemma {:induction false} StepKeepsInv(s: State, e: Event)
    requires Inv(s) && Enabled(s, e)
    ensures Inv(Step(s, e)) && Counts(s, Step(s, e), Late(s, e))
  {
    SurplusIs(s, e);
    match e {
      case ResetDone(success, elapsed) => ResetDoneKeepsInv(s, success, elapsed);
      case Reset => LinkKeepsInv(s, e);
      case DestroyedQpairs(a) => LinkKeepsInv(s, e);
      case Disconnected => LinkKeepsInv(s, e);
      case ReconnectPoll(done, ok) => LinkKeepsInv(s, e);
      case DelayDisconnect(a) => LinkKeepsInv(s, e);
      case DelayDisconnected => LinkKeepsInv(s, e);
      case DelayExpired => LinkKeepsInv(s, e);
      case _ => BlockerKeepsInv(s, e);
    }
    hide Step, Inv, Counts, Late;
  }

  lemma {:induction false} ResetDoneKeepsInv(s: State, success: bool, elapsed: int)
    requires Inv(s) && Enabled(s, ResetDone(success, elapsed))
    ensures var s' := Step(s, ResetDone(success, elapsed)); Inv(s') && Counts(s, s', CanBeUnregistered(s))
  {
    ResetDoneIs(s, success, elapsed);
    hide Step;
  }

  predicate OfLink(e: Event) {
    e.Reset? || e.DestroyedQpairs? || e.Disconnected? || e.ReconnectPoll? || e.DelayDisconnect? || e.DelayDisconnected? || e.DelayExpired?
  }

  lemma {:induction false} LinkKeepsInv(s: State, e: Event)
    requires Inv(s) && Enabled(s, e) && OfLink(e) && Surplus(Step(s, e)) >= 0
    ensures Inv(Step(s, e)) && Counts(s, Step(s, e), false)
  {
    hide Surplus;
  }

  lemma {:induction false} BlockerKeepsInv(s: State, e: Event)
    requires Inv(s) && Enabled(s, e) && !OfLink(e) && !e.ResetDone?
    ensures Inv(Step(s, e)) && Counts(s, Step(s, e), false)
  {
    var s' := Step(s, e);
    assert Surplus(s') == Surplus(s);
    hide Surplus;
  }

  function LateOnes(s: State, es: seq<Event>): nat
    requires Possible(s, es)
    decreases |es|
  {
    if es == [] then 0 else (if Late(s, es[0]) then 1 else 0) + LateOnes(Step(s, es[0]), es[1..])
  }

  lemma {:induction false} RunCounts(s: State, es: seq<Event>)
    requires Inv(s) && Possible(s, es)
    ensures Inv(Run(s, es))
    ensures Run(s, es).unregistered == s.unregistered + LateOnes(s, es)
              + (if !CanBeUnregistered(s) && CanBeUnregistered(Run(s, es)) then 1 else 0)
    decreases |es|
  {
    if es != [] {
      StepKeepsInv(s, es[0]);
      hide Step, Late;
      RunCounts(Step(s, es[0]), es[1..]);
    }
  }

  /** Over every run from creation: a controller is not unregistered before nothing blocks it,
      and then once, plus once for every reset completion that runs after that. */
  lemma {:induction false} UnregisteredIs(s: State, es: seq<Event>)
    requires Init(s) && Possible(s, es)
    ensures Run(s, es).unregistered == LateOnes(s, es) + (if CanBeUnregistered(Run(s, es)) then 1 else 0)
    ensures Run(s, es).unregistered > 1 <==> LateOnes(s, es) > 0
  {
    RunCounts(s, es);
  }

  /** A rejected disconnect of a delayed reconnect, and a reconnect timer that expires while a
      reset runs, each make one completion more than `resetting` announces; only a completion
      that finds the flag clear makes it one less. */
  lemma {:induction false} SurplusIs(s: State, e: Event)
    requires Enabled(s, e)
    ensures Surplus(Step(s, e)) == Surplus(s)
              + (if Uncovers(s, e) then 1 else 0) - (if e.ResetDone? && !s.resetting then 1 else 0)
  {
    if e.ResetDone? {
      ResetDoneIs(s, e.success, e.elapsed);
    } else if OfLink(e) {
      LinkSurplusIs(s, e);
    } else {
      BlockerSurplusIs(s, e);
    }
    hide Step, Surplus;
  }

  lemma {:induction false} LinkSurplusIs(s: State, e: Event)
    requires Enabled(s, e) && OfLink(e)
    ensures Surplus(Step(s, e)) == Surplus(s) + (if Uncovers(s, e) then 1 else 0)
  {}

  lemma {:induction false} BlockerSurplusIs(s: State, e: Event)
    requires Enabled(s, e) && !OfLink(e) && !e.ResetDone?
    ensures Surplus(Step(s, e)) == Surplus(s)
  {}

  predicate Uncovers(s: State, e: Event) {
    e == DelayDisconnect(false) || (e.DelayExpired? && !s.destruct && s.resetting)
  }

  predicate Covered(s: State, es: seq<Event>)
    requires Possible(s, es)
    decreases |es|
  {
    es == [] || (!Uncovers(s, es[0]) && Covered(Step(s, es[0]), es[1..]))
  }

  lemma {:induction false} NoneLate(s: State, es: seq<Event>)
    requires Inv(s) && Possible(s, es) && Covered(s, es) && Surplus(s) == 0
    ensures Surplus(Run(s, es)) == 0 && LateOnes(s, es) == 0
    decreases |es|
  {
    if es != [] {
      StepKeepsInv(s, es[0]);
      SurplusIs(s, es[0]);
      NoneLate(Step(s, es[0]), es[1..]);
    }
  }

  /** What is left to do until a controller with surplus completions has been unregistered
      twice. */
  function Rank(s: State): nat {
    (if s.destruct then 0 else 1) + s.ref + (if s.updating then 1 else 0) + (if s.clearing then 1 else 0)
    + 2 * s.work.started + s.work.finishing + s.work.finishingOk
    + (match s.work.link case Disconnecting => 3 case Reconnecting => 2 case _ => 0)
  }

  /** The next event on the way there. */
  function TowardsTwice(s: State): (e: Event)
    requires Inv(s) && Surplus(s) > 0
    ensures Enabled(s, e) && !Uncovers(s, e)
  {
    if !s.destruct then Delete
    else if s.resetting || CanBeUnregistered(s) then
      if s.work.finishing > 0 then ResetDone(false, 0)
      else if s.work.finishingOk > 0 then ResetDone(true, 0)
      else if s.work.started > 0 then DestroyedQpairs(false)
      else if s.work.link == Disconnecting then Disconnected
      else ReconnectPoll(true, true)
    else if s.updating then AnaDone
    else if s.clearing then ClearDone
    else if s.ref > (if s.creationHeld then 1 else 0) then Release
    else ReleaseCreation
  }

  lemma {:induction false} TowardsTwiceStep(s: State)
    requires Inv(s) && Surplus(s) > 0
    ensures var s' := Step(s, TowardsTwice(s));
            Inv(s') && (s'.unregistered > 1 || (Surplus(s') > 0 && Rank(s') < Rank(s)))
  {
    var e := TowardsTwice(s);
    StepKeepsInv(s, e);
    SurplusIs(s, e);
    if s.destruct && (s.resetting || CanBeUnregistered(s)) {
      TowardsCompletion(s);
      hide Step, Surplus, TowardsTwice;
    } else {
      TowardsRelease(s);
      hide Step, Surplus, TowardsTwice;
    }
  }

  lemma {:induction false} TowardsRelease(s: State)
    requires Inv(s) && Surplus(s) > 0 && !(s.destruct && (s.resetting || CanBeUnregistered(s)))
    ensures var e := TowardsTwice(s); Rank(Step(s, e)) < Rank(s) && !e.ResetDone?
  {}

  lemma {:induction false} TowardsCompletion(s: State)
    requires Inv(s) && Surplus(s) > 0 && s.destruct && (s.resetting || CanBeUnregistered(s))
    ensures var e := TowardsTwice(s); Rank(Step(s, e)) < Rank(s) && (e.ResetDone? ==> s.resetting || Late(s, e))
  {
    var e := TowardsTwice(s);
    if e.ResetDone? {
      ResetDoneIs(s, e.success, e.elapsed);
      hide Step;
    }
  }

  lemma {:induction false} Twice(s: State) returns (es: seq<Event>)
    requires Inv(s) && Surplus(s) > 0
    ensures Possible(s, es) && Covered(s, es) && Run(s, es).unregistered > 1
    decreases Rank(s)
  {
    var e := TowardsTwice(s);
    var s' := Step(s, e);
    TowardsTwiceStep(s);
    hide Step, Inv, Surplus, TowardsTwice, Uncovers;
    var rest := [];
    if s'.unregistered <= 1 {
      rest := Twice(s');
    }
    es := [e] + rest;
    assert es[1..] == rest;
  }

  /** Some run from here on, itself without such an event, unregisters the controller twice. */
  ghost predicate CanUnregisterTwice(s: State) {
    exists es :: Possible(s, es) && Covered(s, es) && Run(s, es).unregistered > 1
  }

  /** A controller unregistered at most once so far can still be unregistered twice if and
      only if some reset completion is under way that `resetting` does not announce. */
  lemma {:induction false} TwiceIff(s: State)
    requires Inv(s) && s.unregistered <= 1
    ensures CanUnregisterTwice(s) <==> Surplus(s) > 0
  {
    if Surplus(s) > 0 {
      var es := Twice(s);
    } else {
      forall es | Possible(s, es) && Covered(s, es) ensures Run(s, es).unregistered <= 1 {
        NoneLate(s, es);
        RunCounts(s, es);
      }
    }
  }

  // Under the two assumptions.

  /** The delayed-reconnect disconnect is accepted, and no reset is admitted while a delayed
      reconnect is on its way. */
  predicate Assumed(s: State, e: Event) {
    && (e.DelayDisconnect? ==> e.accepted)
    && (e.Reset? && ResetResult(s) == 0 ==> Delays(s.work) == 0)
  }

  predicate Admissible(s: State, es: seq<Event>)
    decreases |es|
  {
    es == [] || (Enabled(s, es[0]) && Assumed(s, es[0]) && Admissible(Step(s, es[0]), es[1..]))
  }

  lemma {:induction false} AdmissiblePossible(s: State, es: seq<Event>)
    requires Admissible(s, es)
    ensures Possible(s, es)
    decreases |es|
  {
    if es != [] {
      AdmissiblePossible(Step(s, es[0]), es[1..]);
    }
  }

  /** At most one reset, announced by the flag, or one delayed reconnect. */
  predicate Apart(s: State) {
    Surplus(s) == 0 && Delays(s.work) + (if s.resetting then 1 else 0) <= 1
  }

  lemma {:induction false} StepKeepsApart(s: State, e: Event)
    requires Inv(s) && Apart(s) && Enabled(s, e) && Assumed(s, e)
    ensures Apart(Step(s, e)) && !Uncovers(s, e)
  {
    SurplusIs(s, e);
    match e {
      case ReconnectPoll(done, ok) =>
      case DestroyedQpairs(a) =>
      case ResetDone(success, elapsed) =>
      case _ =>
    }
  }

  /** Exactly-once unregistration, over every interleaving from creation. */
  lemma {:induction false} UnregisteredExactlyOnce(s: State, es: seq<Event>)
    requires Inv(s) && Apart(s) && s.unregistered <= 1 && Admissible(s, es)
    ensures Possible(s, es) && Inv(Run(s, es)) && Apart(Run(s, es))
    ensures Run(s, es).unregistered == (if CanBeUnregistered(Run(s, es)) then 1 else 0)
    ensures Run(s, es).destruct ==> (Run(s, es).unregistered == 1 <==> Blockers(Run(s, es)) == 0)
    decreases |es|
  {
    if es != [] {
      StepKeepsInv(s, es[0]);
      StepKeepsApart(s, es[0]);
      assert !Late(s, es[0]);
      UnregisteredExactlyOnce(Step(s, es[0]), es[1..]);
    }
  }

  function Blockers(s: State): nat {
    s.ref + (if s.resetting then 1 else 0) + (if s.updating then 1 else 0) + (if s.clearing then 1 else 0)
  }

  predicate Completes(e: Event) {
    e.Release? || e.ReleaseCreation? || e.ResetDone? || e.AnaDone? || e.ClearDone?
  }

  function Completions(es: seq<Event>): nat {
    if es == [] then 0 else (if Completes(es[0]) then 1 else 0) + Completions(es[1..])
  }

  /** Once `destruct` is set, completions are the only steps that lower the number of
      blockers, each by one, and nothing but a new reference raises it. */
  lemma {:induction false} BlockersCountDown(s: State, e: Event)
    requires Inv(s) && Apart(s) && Enabled(s, e) && Assumed(s, e) && s.destruct && !e.Acquire?
    ensures Step(s, e).destruct
    ensures Blockers(s) == Blockers(Step(s, e)) + (if Completes(e) then 1 else 0)
  {
    match e {
      case ReconnectPoll(done, ok) =>
      case DestroyedQpairs(a) =>
      case _ =>
    }
  }

  /** So a destructing controller is unregistered by exactly the completion that makes
      their number reach the blockers it started with. */
  lemma {:induction false} CompletionsReachUnregister(s: State, es: seq<Event>)
    requires Inv(s) && Apart(s) && s.unregistered <= 1 && Admissible(s, es) && s.destruct && Acquire !in es
    ensures Possible(s, es)
    ensures Completions(es) <= Blockers(s)
    ensures Run(s, es).unregistered == 1 <==> Completions(es) == Blockers(s)
    decreases |es|
  {
    if es == [] {
      assert Run(s, es) == s;
    } else {
      StepKeepsInv(s, es[0]);
      StepKeepsApart(s, es[0]);
      BlockersCountDown(s, es[0]);
      CompletionsReachUnregister(Step(s, es[0]), es[1..]);
    }
  }

  /** Steps left until the running resets complete, while each of their calls makes progress. */
  function ResetRank(s: State): nat {
    4 * s.work.started + (if s.work.link == Disconnecting then 3 else if s.work.link == Reconnecting then 2 else 0) + s.work.finishing + s.work.finishingOk
  }

  /** Nothing is ever stuck: while blockers remain, some completion is enabled, or the
      running reset has a step that brings its completion nearer. */
  lemma {:induction false} BlockedHasNextStep(s: State) returns (e: Event)
    requires Inv(s) && s.destruct && Blockers(s) > 0
    ensures Enabled(s, e) && Assumed(s, e) && !e.Acquire?
    ensures Completes(e) || ResetRank(Step(s, e)) < ResetRank(s)
  {
    if s.updating {
      e := AnaDone;
    } else if s.clearing {
      e := ClearDone;
    } else if s.ref > (if s.creationHeld then 1 else 0) {
      e := Release;
    } else if s.creationHeld {
      e := ReleaseCreation;
    } else {
      e := if s.work.finishing > 0 then ResetDone(false, 0)
           else if s.work.finishingOk > 0 then ResetDone(true, 0)
           else if s.work.link == Reconnecting then ReconnectPoll(true, true)
           else if s.work.link == Disconnecting then Disconnected
           else DestroyedQpairs(s.work.link == Free);
    }
  }

  // What a reset completion leads to, and what is admitted when.

  /** A reset that failed more than `lossTimeout` seconds ago, if that is set. */
  predicate TooLate(s: State, elapsed: int) {
    s.lossTimeout != 0 && s.lossTimeout != -1 && elapsed >= s.lossTimeout
  }

  /** A reset completion clears `resetting` and starts a delayed reconnect if and only if the
      reset failed, a delay is configured, the controller does not go and its loss timeout has
      not passed; it begins destruction only after a failure past that timeout. A successful
      reset ends there, unless it was the last blocker. */
  lemma {:induction false} ResetLeadsTo(s: State, success: bool, elapsed: int)
    requires Enabled(s, ResetDone(success, elapsed))
    ensures var t := Step(s, ResetDone(success, elapsed));
            var goes := s.destruct && s.ref == 0 && !s.updating && !s.clearing;
            && !t.resetting && t.unregistered == s.unregistered + (if goes then 1 else 0)
            && Delays(t.work) == Delays(s.work)
                 + (if !success && s.reconnectDelay > 0 && !goes && !TooLate(s, elapsed) then 1 else 0)
            && (t.destruct <==> s.destruct || (!success && s.reconnectDelay > 0 && TooLate(s, elapsed)))
            && Resets(t.work) == Resets(s.work) - 1
  {
    ResetDoneIs(s, success, elapsed);
    ResetChooses(s, success, elapsed);
    hide Step;
  }

  lemma {:induction false} ResetChooses(s: State, success: bool, elapsed: int)
    requires Enabled(s, ResetDone(success, elapsed))
    ensures var t := Step(s, ResetDone(success, elapsed));
            var goes := s.destruct && s.ref == 0 && !s.updating && !s.clearing;
            && t.work.decided == s.work.decided
                 + (if !success && s.reconnectDelay > 0 && !goes && !TooLate(s, elapsed) then 1 else 0)
            && (t.destruct <==> s.destruct || (!success && s.reconnectDelay > 0 && TooLate(s, elapsed)))
  {
    var u := s.(work := EndComplete(s.work, success), resetting := false);
    assert CanBeUnregistered(u) <==> s.destruct && s.ref == 0 && !s.updating && !s.clearing;
    hide CanBeUnregistered;
  }

  /** Over every run in which no reset fails and no timeout fires: no delayed reconnect is
      started, and destruction begins with an explicit delete only. */
  lemma {:induction false} SuccessLeavesAlone(s: State, es: seq<Event>)
    requires Possible(s, es) && forall k :: 0 <= k < |es| ==> !(es[k].ResetDone? && !es[k].success)
    ensures Delays(Run(s, es).work) <= Delays(s.work)
    ensures Run(s, es).destruct <==> s.destruct || Delete in es
    decreases |es|
  {
    if es != [] {
      StepLeavesAlone(s, es[0]);
      hide Step, Delays;
      SuccessLeavesAlone(Step(s, es[0]), es[1..]);
      assert Delete in es <==> es[0] == Delete || Delete in es[1..];
    }
  }

  lemma {:induction false} StepLeavesAlone(s: State, e: Event)
    requires Enabled(s, e) && !(e.ResetDone? && !e.success)
    ensures Delays(Step(s, e).work) <= Delays(s.work)
    ensures Step(s, e).destruct <==> s.destruct || e.Delete?
  {
    if e.ResetDone? {
      ResetLeadsTo(s, e.success, e.elapsed);
      hide Step;
    } else if OfLink(e) {
      hide CanBeUnregistered;
    } else {
      hide Delays;
    }
  }

  // What a completion says.

  predicate ReportsSuccess(e: Event) {
    e.ResetDone? && e.success
  }

  predicate ReportsFailure(e: Event) {
    e.ResetDone? && !e.success
  }

  predicate Reconnects(e: Event) {
    e.ReconnectPoll? && e.done && e.ok
  }

  /** The reconnect fails, or the driver refuses to disconnect. */
  predicate Fails(e: Event) {
    || (e.ReconnectPoll? && e.done && !e.ok)
    || ((e.DestroyedQpairs? || e.DelayDisconnect?) && !e.accepted)
  }

  function Tally(es: seq<Event>, p: Event -> bool): nat {
    if es == [] then 0 else (if p(es[0]) then 1 else 0) + Tally(es[1..], p)
  }

  lemma {:induction false} StepTells(s: State, e: Event)
    requires Enabled(s, e)
    ensures var t := Step(s, e);
            && t.work.finishingOk + (if ReportsSuccess(e) then 1 else 0) == s.work.finishingOk + (if Reconnects(e) then 1 else 0)
            && t.work.finishing + (if ReportsFailure(e) then 1 else 0) == s.work.finishing + (if Fails(e) then 1 else 0)
  {
    if e.ResetDone? {
      ResetDoneIs(s, e.success, e.elapsed);
      hide Step;
    } else {
      hide CanBeUnregistered;
    }
  }

  /** Over every run: the resets reported to have succeeded, and those about to be, are the
      reconnects that succeeded; those reported to have failed are the reconnects that failed
      and the disconnects the driver refused. */
  lemma {:induction false} ResultsAreTold(s: State, es: seq<Event>)
    requires Possible(s, es)
    ensures Run(s, es).work.finishingOk + Tally(es, ReportsSuccess) == s.work.finishingOk + Tally(es, Reconnects)
    ensures Run(s, es).work.finishing + Tally(es, ReportsFailure) == s.work.finishing + Tally(es, Fails)
    decreases |es|
  {
    if es != [] {
      StepTells(s, es[0]);
      hide Step, ReportsSuccess, ReportsFailure, Reconnects, Fails;
      ResultsAreTold(Step(s, es[0]), es[1..]);
    }
  }

  /** Each step of a reset: it disconnects and then reconnects if the driver lets it, and any poll
      of the reconnect clears the loss timeout. A delayed reconnect disconnects and then waits. */
  lemma {:induction false} ResetMovesOn(s: State, e: Event)
    requires Enabled(s, e) && OfLink(e)
    ensures var w, t := s.work, Step(s, e);
            && (e.DestroyedQpairs? ==> t.work.started == w.started - 1 && t.work.link == if e.accepted then Disconnecting else w.link)
            && (e.Disconnected? ==> t.work.link == Reconnecting)
            && (e.ReconnectPoll? ==> t.work.link == if e.done then Free else Reconnecting)
            && (e.DelayDisconnect? ==> t.work.decided == w.decided - 1 && t.work.link == if e.accepted then Leaving else w.link)
            && (e.DelayDisconnected? ==> t.work.link == Waiting && t.delayed)
  {
    hide CanBeUnregistered;
  }

  predicate TakesRef(e: Event) {
    e.Acquire?
  }

  predicate DropsRef(e: Event) {
    e.Release? || e.ReleaseCreation?
  }

  lemma {:induction false} StepRefs(s: State, e: Event)
    requires Enabled(s, e)
    ensures Step(s, e).ref + (if DropsRef(e) then 1 else 0) == s.ref + (if TakesRef(e) then 1 else 0)
    ensures Step(s, e).creationHeld == (s.creationHeld && !e.ReleaseCreation?)
  {
    if e.ResetDone? {
      ResetDoneIs(s, e.success, e.elapsed);
      hide Step;
    } else if OfLink(e) {
      hide CanBeUnregistered;
    }
  }

  /** Over every run the references are those taken minus those dropped, and that of the
      creation is held until it is dropped. */
  lemma {:induction false} ReferencesBalance(s: State, es: seq<Event>)
    requires Possible(s, es)
    ensures Run(s, es).ref + Tally(es, DropsRef) == s.ref + Tally(es, TakesRef)
    ensures Run(s, es).creationHeld <==> s.creationHeld && ReleaseCreation !in es
    decreases |es|
  {
    if es != [] {
      StepRefs(s, es[0]);
      hide Step, DropsRef, TakesRef;
      ReferencesBalance(Step(s, es[0]), es[1..]);
      assert ReleaseCreation in es <==> es[0] == ReleaseCreation || ReleaseCreation in es[1..];
    }
  }

  /** Over every run the failure mark is what was set last, the reconnect delay never changes
      and the loss timeout is what it was until a reconnect is polled, and zero from then on. */
  lemma {:induction false} SettingsKeep(s: State, es: seq<Event>)
    requires Possible(s, es)
    ensures Run(s, es).failed == LastFailed(s.failed, es) && Run(s, es).reconnectDelay == s.reconnectDelay
    ensures Run(s, es).lossTimeout == if exists k :: 0 <= k < |es| && es[k].ReconnectPoll? then 0 else s.lossTimeout
    decreases |es|
  {
    if es != [] {
      StepSettings(s, es[0]);
      hide Step;
      SettingsKeep(Step(s, es[0]), es[1..]);
      assert forall k :: 1 <= k < |es| ==> es[k] == es[1..][k - 1];
    }
  }

  function LastFailed(failed: bool, es: seq<Event>): bool
    decreases |es|
  {
    if es == [] then failed else LastFailed(if es[0].SetFailed? then es[0].value else failed, es[1..])
  }

  lemma {:induction false} StepSettings(s: State, e: Event)
    requires Enabled(s, e)
    ensures var t := Step(s, e);
            && t.failed == (if e.SetFailed? then e.value else s.failed) && t.reconnectDelay == s.reconnectDelay
            && t.lossTimeout == if e.ReconnectPoll? then 0 else s.lossTimeout
  {
    if e.ResetDone? {
      CompleteSettings(s.(work := EndComplete(s.work, e.success)), e.success, e.elapsed);
    }
    hide CanBeUnregistered, CompleteReset;
  }

  lemma {:induction false} CompleteSettings(s: State, success: bool, elapsed: int)
    ensures var t := CompleteReset(s, success, elapsed);
            t.failed == s.failed && t.reconnectDelay == s.reconnectDelay && t.lossTimeout == s.lossTimeout
  {
    hide CanBeUnregistered, LossTimedOut;
  }

  /** A reset is admitted if and only if the controller is neither being destructed nor
      resetting nor waiting to reconnect, and says why not. */
  lemma {:induction false} ResetAdmittedIff(s: State)
    ensures ResetResult(s) == (if s.destruct then -ENXIO else if s.resetting || s.delayed then -EBUSY else 0)
    ensures var t := Step(s, Reset);
            if !s.destruct && !s.resetting && !s.delayed then t.resetting && Resets(t.work) == Resets(s.work) + 1
            else t == s
  {}

  /** An ANA read or a clearing of the path caches starts if and only if none of its kind is
      under way and the controller is not failed, resetting, waiting to reconnect or being
      destructed; only its own completion ends it. */
  lemma {:induction false} BackgroundWorkIff(s: State, e: Event)
    requires Enabled(s, e)
    ensures var t := Step(s, e);
            var usable := !s.failed && !s.resetting && !s.delayed && !s.destruct;
            && (t.updating <==> (s.updating && !e.AnaDone?) || (e.ReadAna? && usable))
            && (t.clearing <==> (s.clearing && !e.ClearDone?) || (e.ClearCaches? && usable))
  {
    if e.ResetDone? {
      ResetDoneIs(s, e.success, e.elapsed);
      hide Step;
    }
  }

  /** When the delay timer expires the controller reconnects, unless it is being destructed;
      then nothing is left under way for it. */
  lemma {:induction false} TimerReconnectsIff(s: State)
    requires Enabled(s, DelayExpired)
    ensures var t := Step(s, DelayExpired);
            && !t.delayed && Delays(t.work) == Delays(s.work) - 1 && t.destruct == s.destruct
            && (if s.destruct then t.work.link == Free && t.resetting == s.resetting && Resets(t.work) == Resets(s.work)
                else t.work.link == Reconnecting && t.resetting && Resets(t.work) == Resets(s.work) + 1)
  {}

  // The reconnect poll clears the controller-loss timeout.

  lemma {:induction false} LossTimeoutStaysZero(s: State, e: Event)
    requires Enabled(s, e) && s.lossTimeout == 0 && !e.Delete?
    ensures Step(s, e).lossTimeout == 0 && Step(s, e).destruct == s.destruct
  {
    match e {
      case ResetDone(_, elapsed) => assert !LossTimedOut(s, elapsed);
      case DelayExpired =>
      case Reset =>
      case ReadAna =>
      case ClearCaches =>
      case _ =>
    }
  }

  /** After the first reconnect poll no reset completion ever destroys the controller:
      only an explicit delete does. */
  lemma {:induction false} LossTimeoutNeverFires(s: State, es: seq<Event>)
    requires Possible(s, es) && s.lossTimeout == 0 && Delete !in es
    ensures Run(s, es).lossTimeout == 0 && Run(s, es).destruct == s.destruct
    decreases |es|
  {
    if es != [] {
      LossTimeoutStaysZero(s, es[0]);
      LossTimeoutNeverFires(Step(s, es[0]), es[1..]);
    }
  }

  // What the two assumptions exclude.

  lemma {:induction false} RunOne(s: State, e: Event, es: seq<Event>)
    requires Enabled(s, e) && Possible(Step(s, e), es)
    ensures Possible(s, [e] + es) && Run(s, [e] + es) == Run(Step(s, e), es)
  {
    assert ([e] + es)[1..] == es;
  }

  /** A reset that fails to disconnect and chooses a delayed reconnect. */
  lemma {:induction false} FailedReset(s: State)
    requires Init(s) && s.reconnectDelay > 0 && s.lossTimeout >= -1
    ensures var es := [Reset, DestroyedQpairs(false), ResetDone(false, 0)];
            Possible(s, es) && Run(s, es) == s.(work := Work(0, 0, 0, 1, Free))
  {
    var s1 := Step(s, Reset);
    var s2 := Step(s1, DestroyedQpairs(false));
    var s3 := Step(s2, ResetDone(false, 0));
    assert s3 == s.(work := Work(0, 0, 0, 1, Free)) && Run(s3, []) == s3;
    RunOne(s2, ResetDone(false, 0), []);
    RunOne(s1, DestroyedQpairs(false), [ResetDone(false, 0)]);
    RunOne(s, Reset, [DestroyedQpairs(false), ResetDone(false, 0)]);
  }

  /** From there: if the delayed reconnect cannot disconnect, the controller is deleted and
      fully released before the second completion arrives, and it is unregistered twice. */
  lemma {:induction false} RejectedDisconnectUnregistersTwice(s: State)
    requires Init(s) && s.reconnectDelay > 0 && s.lossTimeout >= -1
    ensures var t := s.(work := Work(0, 0, 0, 1, Free));
            var es := [DelayDisconnect(false), Delete, ReleaseCreation, ResetDone(false, 0)];
            Possible(t, es) && Run(t, es).unregistered == 2
  {
    var s1 := Step(s.(work := Work(0, 0, 0, 1, Free)), DelayDisconnect(false));
    var s2 := Step(s1, Delete);
    var s3 := Step(s2, ReleaseCreation);
    var s4 := Step(s3, ResetDone(false, 0));
    assert s4.unregistered == 2 && Run(s4, []) == s4;
    RunOne(s3, ResetDone(false, 0), []);
    RunOne(s2, ReleaseCreation, [ResetDone(false, 0)]);
    RunOne(s1, Delete, [ReleaseCreation, ResetDone(false, 0)]);
    RunOne(s.(work := Work(0, 0, 0, 1, Free)), DelayDisconnect(false), [Delete, ReleaseCreation, ResetDone(false, 0)]);
  }

  /** A reset admitted before the second completion loses its flag to it: the controller is
      unregistered while that reset runs, and again when it completes. */
  lemma {:induction false} ResetAfterRejectionUnregistersTwice(s: State)
    requires Init(s) && s.reconnectDelay > 0 && s.lossTimeout >= -1
    ensures var t := s.(work := Work(0, 0, 0, 1, Free));
            var es := [DelayDisconnect(false), Reset, ResetDone(false, 0)];
            && Possible(t, es) && Run(t, es) == s.(work := Work(1, 0, 0, 1, Free))
            && CanUnregisterTwice(Run(t, es))
  {
    var t := s.(work := Work(0, 0, 0, 1, Free));
    var s1 := Step(t, DelayDisconnect(false));
    var s2 := Step(s1, Reset);
    var s3 := Step(s2, ResetDone(false, 0));
    assert s3 == s.(work := Work(1, 0, 0, 1, Free)) && Run(s3, []) == s3;
    RunOne(s2, ResetDone(false, 0), []);
    RunOne(s1, Reset, [ResetDone(false, 0)]);
    RunOne(t, DelayDisconnect(false), [Reset, ResetDone(false, 0)]);
    TwiceIff(s3);
  }

  /** A reset admitted while the delayed reconnect is on its way is still there when the
      timer starts another one. */
  lemma {:induction false} ResetDuringDelayUnregistersTwice(s: State)
    requires Init(s) && s.reconnectDelay > 0 && s.lossTimeout >= -1
    ensures var t := s.(work := Work(0, 0, 0, 1, Free));
            var es := [DelayDisconnect(true), Reset, DelayDisconnected, DelayExpired];
            && Possible(t, es) && CanUnregisterTwice(Run(t, es))
  {
    var t := s.(work := Work(0, 0, 0, 1, Free));
    var s1 := Step(t, DelayDisconnect(true));
    var s2 := Step(s1, Reset);
    var s3 := Step(s2, DelayDisconnected);
    var s4 := Step(s3, DelayExpired);
    assert Surplus(s4) == 1 && Run(s4, []) == s4;
    RunOne(s3, DelayExpired, []);
    RunOne(s2, DelayDisconnected, [DelayExpired]);
    RunOne(s1, Reset, [DelayDisconnected, DelayExpired]);
    RunOne(t, DelayDisconnect(true), [Reset, DelayDisconnected, DelayExpired]);
    TwiceIff(s4);
  }

  /** The controller as the code updates it; each method is one critical section. */
  class NvmeCtrlr {
    var destruct: bool
    var creationHeld: bool
    var ref: nat
    var resetting: bool
    var reconnectIsDelayed: bool
    var anaLogPageUpdating: bool
    var ioPathCacheClearing: bool
    var isFailed: bool
    var work: Work
    const reconnectDelaySec: nat
    var ctrlrLossTimeoutSec: int
    var unregistered: nat

    constructor (reconnectDelaySec: nat, ctrlrLossTimeoutSec: int)
      ensures Init(Abs()) && Abs().reconnectDelay == reconnectDelaySec && Abs().lossTimeout == ctrlrLossTimeoutSec
    {
      destruct, creationHeld, ref, resetting, reconnectIsDelayed := false, true, 1, false, false;
      anaLogPageUpdating, ioPathCacheClearing, isFailed := false, false, false;
      work, unregistered := Work(0, 0, 0, 0, Free), 0;
      this.reconnectDelaySec, this.ctrlrLossTimeoutSec := reconnectDelaySec, ctrlrLossTimeoutSec;
    }

    function Abs(): State
      reads this
    {
      State(destruct, creationHeld, ref, resetting, reconnectIsDelayed, anaLogPageUpdating, ioPathCacheClearing,
            isFailed, work, reconnectDelaySec, ctrlrLossTimeoutSec, unregistered)
    }

    /** `nvme_ctrlr_release`; `creation` tells which reference is given back. */
    method ReleaseRef(creation: bool)
      requires Enabled(Abs(), if creation then ReleaseCreation else Release)
      modifies this
      ensures Abs() == Step(old(Abs()), if creation then ReleaseCreation else Release)
    {
      ref := ref - 1;
      if creation {
        creationHeld := false;
      }
      if !CanBeUnregistered(Abs()) {
        return;
      }
      unregistered := unregistered + 1;
    }

    /** `bdev_nvme_reset` with its return codes. */
    method StartReset() returns (rc: int)
      modifies this
      ensures rc == ResetResult(old(Abs())) && Abs() == Step(old(Abs()), Reset)
    {
      if destruct {
        return -ENXIO;
      }
      if resetting {
        return -EBUSY;
      }
      if reconnectIsDelayed {
        return -EBUSY;
      }
      resetting := true;
      work := work.(started := work.started + 1);
      return 0;
    }

    /** `_bdev_nvme_delete`: false if destruction had already begun. */
    method StartDelete() returns (started: bool)
      modifies this
      ensures started == !old(destruct) && Abs() == Step(old(Abs()), Delete)
    {
      if destruct {
        return false;
      }
      destruct := true;
      return true;
    }

    /** `bdev_nvme_reconnect_ctrlr_poll`, which zeroes the loss timeout on every call. */
    method PollReconnect(done: bool, ok: bool)
      requires Enabled(Abs(), ReconnectPoll(done, ok))
      modifies this
      ensures Abs() == Step(old(Abs()), ReconnectPoll(done, ok))
    {
      ctrlrLossTimeoutSec := 0;
      if !done {
        return;
      }
      work := work.(link := Free);
      ResetComplete(ok);
    }

    /** `bdev_nvme_reset_complete`. */
    method ResetComplete(success: bool)
      modifies this`work
      ensures work == BeginComplete(old(work), success)
    {
      if success {
        work := work.(finishingOk := work.finishingOk + 1);
      } else {
        work := work.(finishing := work.finishing + 1);
      }
    }

    /** `nvme_ctrlr_disconnect`, for a reset or for a delayed reconnect, which becomes the
        holder of `disconnected_cb` if the driver accepts. */
    method Disconnect(forDelay: bool, accepted: bool)
      requires Enabled(Abs(), if forDelay then DelayDisconnect(accepted) else DestroyedQpairs(accepted))
      modifies this
      ensures Abs() == Step(old(Abs()), if forDelay then DelayDisconnect(accepted) else DestroyedQpairs(accepted))
    {
      if forDelay {
        work := work.(decided := work.decided - 1);
      } else {
        work := work.(started := work.started - 1);
      }
      if !accepted {
        ResetComplete(false);
        return;
      }
      work := work.(link := if forDelay then Leaving else Disconnecting);
    }

    /** `_bdev_nvme_reset_complete`. */
    method FinishReset(success: bool, elapsed: int)
      requires Enabled(Abs(), ResetDone(success, elapsed))
      modifies this
      ensures Abs() == Step(old(Abs()), ResetDone(success, elapsed))
    {
      work := EndComplete(work, success);
      resetting := false;
      var op := CheckOpAfterReset(Abs(), success, elapsed);
      match op {
        case OpCompletePendingDestruct => unregistered := unregistered + 1;
        case OpDestruct => var _ := StartDelete();
        case OpDelayedReconnect => work := Chosen(work);
        case OpNone =>
      }
    }

    /** `bdev_nvme_start_reconnect_delay_timer`. */
    method StartDelayTimer()
      requires Enabled(Abs(), DelayDisconnected)
      modifies this
      ensures Abs() == Step(old(Abs()), DelayDisconnected)
    {
      reconnectIsDelayed := true;
      work := work.(link := Waiting);
    }

    /** `bdev_nvme_reconnect_delay_timer_expired`. */
    method DelayTimerExpired()
      requires Enabled(Abs(), DelayExpired)
      modifies this
      ensures Abs() == Step(old(Abs()), DelayExpired)
    {
      work := work.(link := Free);
      reconnectIsDelayed := false;
      if destruct {
        return;
      }
      resetting := true;
      work := work.(link := Reconnecting);
    }

    /** `nvme_ctrlr_read_ana_log_page`, past its size checks. */
    method ReadAnaLogPage() returns (rc: int)
      modifies this
      ensures Abs() == Step(old(Abs()), ReadAna)
      ensures rc == if IsAvailable(old(Abs())) && !old(anaLogPageUpdating) then 0 else -EBUSY
    {
      if !IsAvailable(Abs()) || anaLogPageUpdating {
        return -EBUSY;
      }
      anaLogPageUpdating := true;
      return 0;
    }

    /** `nvme_ctrlr_read_ana_log_page_done`: unregisters, or goes on to clear the caches. */
    method ReadAnaLogPageDone()
      requires Enabled(Abs(), AnaDone)
      modifies this
      ensures var s := Step(old(Abs()), AnaDone); Abs() == if CanBeUnregistered(s) then s else Step(s, ClearCaches)
    {
      anaLogPageUpdating := false;
      if CanBeUnregistered(Abs()) {
        unregistered := unregistered + 1;
      } else {
        ClearIoPathCaches();
      }
    }

    /** `bdev_nvme_clear_io_path_caches`. */
    method ClearIoPathCaches()
      modifies this
      ensures Abs() == Step(old(Abs()), ClearCaches)
    {
      if !IsAvailable(Abs()) || ioPathCacheClearing {
        return;
      }
      ioPathCacheClearing := true;
    }

    /** `bdev_nvme_clear_io_path_caches_done`. */
    method ClearIoPathCachesDone()
      requires Enabled(Abs(), ClearDone)
      modifies this
      ensures Abs() == Step(old(Abs()), ClearDone)
    {
      ioPathCacheClearing := false;
      if !CanBeUnregistered(Abs()) {
        return;
      }
      unregistered := unregistered + 1;
    }
  }
}
