/** The CC and CSTS properties of one controller, sections 3.1.5 and 3.1.6 of NVM Express Base
    Specification 1.4: writes, shutdowns, resets and the disconnects they start
    (nvmf/ctrlr.c:1019-1081, 1122-1127, 1147-1272). */
module CcCsts {

  const SHN_NORMAL := 1
  const SHN_ABRUPT := 2
  const SHST_COMPLETE := 2
  const CSS_IOCS := 6

  /** The controller configuration by field; `reserved` is every bit without a name. */
  datatype Cc = Cc(en: bool, css: nat, mps: nat, ams: nat, shn: nat, iosqes: nat, iocqes: nat, reserved: nat)

  datatype Csts = Csts(rdy: bool, cfs: bool, shst: nat, other: nat)

  const CC_ZERO := Cc(false, 0, 0, 0, 0, 0, 0, 0)
  const CSTS_ZERO := Csts(false, false, 0, 0)

  /** `pending` counts the disconnect completions (or timers in their place) that are still
      to come; `deadline` is `cc_timeout_tsc`, `timer` tells that `cc_timeout_timer` is set. */
  datatype State = State(cc: Cc, csts: Csts, inProgress: bool, isShn: bool, pending: nat, deadline: nat, timer: bool)

  datatype Event =
    | Write(v: Cc, now: nat)           // `nvmf_prop_set_cc`
    | DisconnectDone(queues: nat, now: nat) // `_nvmf_ctrlr_cc_reset_shn_done`
    | Fatal                            // `nvmf_ctrlr_set_fatal_status`, on a keep-alive timeout

  /** `limit`: the ticks a disconnect may take. */
  function Disconnect(s: State, isShn: bool, now: nat, limit: nat): State {
    s.(inProgress := true, isShn := isShn, pending := s.pending + 1, deadline := now + limit, timer := true)
  }

  /** The outcome of one block of the write: go on, or return a verdict. */
  datatype Flow = Go(s: State) | Return(s: State, ok: bool)

  function WriteEn(s: State, v: Cc, now: nat, limit: nat): Flow {
    if v.en == s.cc.en then Go(s)
    else if v.en then Go(s.(cc := s.cc.(en := true), csts := s.csts.(rdy := true)))
    else if s.inProgress then Return(s, true)
    else Go(Disconnect(s.(cc := s.cc.(en := false)), false, now, limit))
  }

  function WriteShn(s: State, v: Cc, now: nat, limit: nat): Flow {
    if v.shn == s.cc.shn then Go(s)
    else if v.shn == SHN_NORMAL || v.shn == SHN_ABRUPT then
      if s.inProgress then Return(s, true) else Go(Disconnect(s.(cc := s.cc.(shn := v.shn)), true, now, limit))
    else if v.shn == 0 then Go(s.(cc := s.cc.(shn := 0)))
    else Return(s, false)
  }

  /** The rest: the queue entry sizes are stored, changes of AMS, MPS and an unknown CSS refused. */
  function WriteRest(s: State, v: Cc): Flow {
    var s' := s.(cc := s.cc.(iosqes := v.iosqes, iocqes := v.iocqes));
    Return(s', v.ams == s.cc.ams && v.mps == s.cc.mps && (v.css == s.cc.css || v.css <= CSS_IOCS))
  }

  function WriteCc(s: State, v: Cc, now: nat, limit: nat): (r: Flow)
    ensures r.Return?
  {
    var en := WriteEn(s, v, now, limit);
    if en.Return? then en
    else
      var shn := WriteShn(en.s, v, now, limit);
      if shn.Return? then shn else WriteRest(shn.s, v)
  }

  /** Some I/O queue is left and there is still time. */
  predicate NotYet(s: State, queues: nat, now: nat) {
    queues > 1 && now < s.deadline
  }

  function Finish(s: State, queues: nat): State {
    var csts := if queues > 1 then s.csts.(cfs := true) else s.csts;
    var s' := s.(inProgress := false, isShn := false, timer := false, pending := if s.pending > 0 then s.pending - 1 else 0);
    if s.isShn then s'.(csts := csts.(shst := SHST_COMPLETE)) else s'.(cc := CC_ZERO, csts := CSTS_ZERO)
  }

  function Step(s: State, e: Event, limit: nat): State {
    match e
    case Write(v, now) => WriteCc(s, v, now, limit).s
    case DisconnectDone(queues, now) => if NotYet(s, queues, now) then s else Finish(s, queues)
    case Fatal => s.(csts := s.csts.(cfs := true))
  }

  predicate Enabled(s: State, e: Event) {
    e.DisconnectDone? ==> s.pending > 0
  }

  predicate Inv(s: State) {
    && (s.cc.en ==> s.csts.rdy)
    && (s.csts.rdy && !s.cc.en ==> s.inProgress && !s.isShn)
    && s.pending == (if s.inProgress then 1 else 0)
    && (s.isShn ==> s.inProgress)
    && s.timer == s.inProgress
  }

  predicate Admissible(s: State, es: seq<Event>, limit: nat)
    decreases |es|
  {
    es == [] || (Enabled(s, es[0]) && Admissible(Step(s, es[0], limit), es[1..], limit))
  }

  function Run(s: State, es: seq<Event>, limit: nat): State
    decreases |es|
  {
    if es == [] then s else Run(Step(s, es[0], limit), es[1..], limit)
  }

  lemma {:induction false} RunKeepsInv(s: State, es: seq<Event>, limit: nat)
    requires Inv(s) && Admissible(s, es, limit)
    ensures Inv(Run(s, es, limit))
    decreases |es|
  {
    if es != [] {
      RunKeepsInv(Step(s, es[0], limit), es[1..], limit);
    }
  }

  /** Over every run from power-on: an enabled controller is ready; a disabled one is ready
      only while a reset is disconnecting its queues; at most one disconnect is under way. */
  lemma {:induction false} EnabledIsReady(css: nat, es: seq<Event>, limit: nat)
    requires Admissible(PowerOn(css), es, limit)
    ensures var t := Run(PowerOn(css), es, limit);
            && (t.cc.en ==> t.csts.rdy) && (t.csts.rdy && !t.cc.en ==> t.inProgress && !t.isShn)
            && t.pending == if t.inProgress then 1 else 0
  {
    RunKeepsInv(PowerOn(css), es, limit);
  }

  /** A new controller: everything zero but the command set selection. */
  function PowerOn(css: nat): State {
    State(CC_ZERO.(css := css), CSTS_ZERO, false, false, 0, 0, false)
  }

  /** Neither the kind of disconnect nor its deadline changes before it has finished. */
  lemma {:induction false} DisconnectKeepsKind(s: State, es: seq<Event>, limit: nat)
    requires Inv(s) && s.inProgress && forall k :: 0 <= k < |es| ==> !es[k].DisconnectDone?
    ensures var t := Run(s, es, limit); t.inProgress && t.isShn == s.isShn && t.deadline == s.deadline && t.pending == 1
    decreases |es|
  {
    if es != [] {
      DisconnectKeepsKind(Step(s, es[0], limit), es[1..], limit);
    }
  }

  /** Whatever the host writes while a reset is under way is lost when the reset finishes:
      CC and CSTS are all zero then, even if the controller was enabled again. */
  lemma {:induction false} FinishedResetZeroes(s: State, es: seq<Event>, limit: nat, queues: nat, now: nat)
    requires Inv(s) && s.inProgress && !s.isShn && forall k :: 0 <= k < |es| ==> !es[k].DisconnectDone?
    ensures var t := Step(Run(s, es, limit), DisconnectDone(queues, now), limit);
            if queues > 1 && now < s.deadline then t == Run(s, es, limit)
            else t.cc == CC_ZERO && t.csts == CSTS_ZERO && !t.inProgress && !t.isShn && !t.timer
  {
    DisconnectKeepsKind(s, es, limit);
  }

  /** A shutdown reports its completion and leaves the configuration as the host has it. */
  lemma {:induction false} FinishedShutdownCompletes(s: State, es: seq<Event>, limit: nat, queues: nat, now: nat)
    requires Inv(s) && s.inProgress && s.isShn && forall k :: 0 <= k < |es| ==> !es[k].DisconnectDone?
    ensures var r := Run(s, es, limit);
            var t := Step(r, DisconnectDone(queues, now), limit);
            if queues > 1 && now < s.deadline then t == r
            else && t.cc == r.cc && !t.inProgress && !t.isShn && !t.timer
                 && t.csts == Csts(r.csts.rdy, r.csts.cfs || queues > 1, SHST_COMPLETE, r.csts.other)
  {
    DisconnectKeepsKind(s, es, limit);
  }

  /** An enabled controller that is disabled and enabled again is enabled afterwards if and
      only if the reset had finished before the second write: some completion or timer in
      between found no I/O queue left, or came no earlier than the deadline. */
  lemma {:induction false} ReenableSurvivesIff(s: State, off: Cc, on: Cc, es: seq<Event>, t0: nat, t1: nat, t2: nat, limit: nat)
    requires Inv(s) && s.cc.en && !s.inProgress && !off.en && on.en && off.shn == on.shn == s.cc.shn == 0
    requires NoWrites(es) && Admissible(Step(s, Write(off, t0), limit), es, limit)
    ensures var u := Step(Run(Step(s, Write(off, t0), limit), es, limit), Write(on, t1), limit);
            u.cc.en && (u.inProgress ==> !u.isShn)
            && ((if u.inProgress then Step(u, DisconnectDone(1, t2), limit) else u).cc.en
                <==> exists k :: 0 <= k < |es| && es[k].DisconnectDone? && (es[k].queues <= 1 || es[k].now >= t0 + limit))
  {
    WithoutWrites(Step(s, Write(off, t0), limit), es, limit);
  }

  predicate NoWrites(es: seq<Event>) {
    forall k :: 0 <= k < |es| ==> !es[k].Write?
  }

  /** Without writes a disconnect under way ends exactly when a completion or timer finds no
      I/O queue left or the deadline passed, as its kind demands; nothing else changes CC. */
  lemma {:induction false} WithoutWrites(s: State, es: seq<Event>, limit: nat)
    requires Inv(s) && NoWrites(es) && Admissible(s, es, limit)
    ensures var r := Run(s, es, limit);
            && Inv(r)
            && r.inProgress == (s.inProgress && forall k :: 0 <= k < |es| && es[k].DisconnectDone? ==> NotYet(s, es[k].queues, es[k].now))
            && (if r.inProgress == s.inProgress then r.cc == s.cc && r.isShn == s.isShn && r.csts.shst == s.csts.shst
                else if s.isShn then r.cc == s.cc && r.csts.shst == SHST_COMPLETE && !r.isShn
                else r.cc == CC_ZERO && r.csts.shst == 0 && !r.isShn)
    decreases |es|
  {
    if es != [] {
      var s' := Step(s, es[0], limit);
      assert es[0].DisconnectDone? ==> s.inProgress;
      WithoutWrites(s', es[1..], limit);
      assert forall k :: 1 <= k < |es| ==> es[k] == es[1..][k - 1];
    }
  }

  /** The write stops at its EN or SHN block: it would start a second disconnect. */
  predicate Dropped(s: State, v: Cc) {
    || (s.cc.en && !v.en && (s.inProgress || Notifies(s, v)))
    || (Notifies(s, v) && s.inProgress)
  }

  /** The write notifies a shutdown. */
  predicate Notifies(s: State, v: Cc) {
    v.shn != s.cc.shn && (v.shn == SHN_NORMAL || v.shn == SHN_ABRUPT)
  }

  /** SHN changes to the value that is reserved. */
  predicate Reserved(s: State, v: Cc) {
    v.shn != s.cc.shn && v.shn != 0 && v.shn != SHN_NORMAL && v.shn != SHN_ABRUPT
  }

  /** What a write stores and what it answers: EN is taken at once, except that a reset waits for
      one disconnect at a time; each queue entry size goes to its own field unless the write
      stopped before; arbitration, page size, command set and reserved bits are never stored. */
  lemma {:induction false} WriteStores(s: State, v: Cc, now: nat, limit: nat)
    requires Inv(s)
    ensures var t, ok := Step(s, Write(v, now), limit), WriteCc(s, v, now, limit).ok;
            var stopped := Dropped(s, v) || Reserved(s, v);
            && t.cc.en == (v.en || (s.cc.en && s.inProgress))
            && t.cc.shn == (if stopped then s.cc.shn else v.shn)
            && t.cc.iosqes == (if stopped then s.cc.iosqes else v.iosqes)
            && t.cc.iocqes == (if stopped then s.cc.iocqes else v.iocqes)
            && t.cc.ams == s.cc.ams && t.cc.mps == s.cc.mps && t.cc.css == s.cc.css && t.cc.reserved == s.cc.reserved
            && t.csts == s.csts.(rdy := s.csts.rdy || v.en)
            && (ok <==> Dropped(s, v) || (!Reserved(s, v) && v.ams == s.cc.ams && v.mps == s.cc.mps
                                          && (v.css != s.cc.css ==> v.css <= 6)))
  {}

  /** A write starts a disconnect if and only if none is under way and it clears EN or notifies
      a shutdown: a reset in the first case. It gets the full time. */
  lemma {:induction false} DisconnectStartsIff(s: State, v: Cc, now: nat, limit: nat)
    requires Inv(s)
    ensures var t := Step(s, Write(v, now), limit);
            var starts := !s.inProgress && ((s.cc.en && !v.en) || Notifies(s, v));
            && t.inProgress == (s.inProgress || starts) && t.timer == t.inProgress
            && t.isShn == (if starts then !(s.cc.en && !v.en) else s.isShn)
            && t.deadline == (if starts then now + limit else s.deadline)
  {}

  /** Over every run arbitration, page size, command set and reserved bits are what they were
      at first or, after a reset, zero. */
  lemma {:induction false} FixedFieldsStay(s: State, es: seq<Event>, limit: nat)
    ensures var t := Run(s, es, limit);
            || (t.cc.ams, t.cc.mps, t.cc.css, t.cc.reserved) == (s.cc.ams, s.cc.mps, s.cc.css, s.cc.reserved)
            || (t.cc.ams, t.cc.mps, t.cc.css, t.cc.reserved) == (0, 0, 0, 0)
    decreases |es|
  {
    if es != [] {
      StepFixed(s, es[0], limit);
      hide Step;
      FixedFieldsStay(Step(s, es[0], limit), es[1..], limit);
    }
  }

  lemma {:induction false} StepFixed(s: State, e: Event, limit: nat)
    ensures var t := Step(s, e, limit);
            || (t.cc.ams, t.cc.mps, t.cc.css, t.cc.reserved) == (s.cc.ams, s.cc.mps, s.cc.css, s.cc.reserved)
            || (t.cc.ams, t.cc.mps, t.cc.css, t.cc.reserved) == (0, 0, 0, 0)
  {}

  /** Fatal errors are sticky: without a reset that finishes, CFS is set at the end if and only
      if it was, or the keep-alive timed out, or some shutdown finished with queues left. */
  lemma {:induction false} FatalIff(s: State, es: seq<Event>, limit: nat)
    requires forall k :: 0 <= k < |es| ==> !FinishesReset(Run(s, es[..k], limit), es[k])
    ensures Run(s, es, limit).csts.cfs <==>
            s.csts.cfs || exists k :: 0 <= k < |es| && SetsFatal(Run(s, es[..k], limit), es[k])
    decreases |es|
  {
    if es != [] {
      var s' := Step(s, es[0], limit);
      assert es[..0] == [];
      StepFatal(s, es[0], limit);
      hide Step, SetsFatal, FinishesReset;
      forall k | 0 <= k < |es[1..]| ensures Run(s', es[1..][..k], limit) == Run(s, es[..k + 1], limit) && es[1..][k] == es[k + 1] {
        assert es[..k + 1][1..] == es[1..][..k];
      }
      FatalIff(s', es[1..], limit);
      if s'.csts.cfs && !s.csts.cfs {
        assert SetsFatal(Run(s, es[..0], limit), es[0]);
      }
      if k :| 0 <= k < |es[1..]| && SetsFatal(Run(s', es[1..][..k], limit), es[1..][k]) {
        assert SetsFatal(Run(s, es[..k + 1], limit), es[k + 1]);
      }
      if k :| 0 <= k < |es| && SetsFatal(Run(s, es[..k], limit), es[k]) {
        assert k > 0 ==> SetsFatal(Run(s', es[1..][..k - 1], limit), es[1..][k - 1]);
      }
    }
  }

  lemma {:induction false} StepFatal(s: State, e: Event, limit: nat)
    requires !FinishesReset(s, e)
    ensures Step(s, e, limit).csts.cfs <==> s.csts.cfs || SetsFatal(s, e)
  {}

  predicate SetsFatal(s: State, e: Event) {
    e.Fatal? || (e.DisconnectDone? && e.queues > 1 && e.now >= s.deadline && s.isShn)
  }

  predicate FinishesReset(s: State, e: Event) {
    e.DisconnectDone? && !s.isShn && (e.queues <= 1 || e.now >= s.deadline)
  }

  /** A write that notifies a shutdown starts it if and only if it does not clear EN as well
      and no disconnect is in progress; otherwise it drops the notification and all fields
      after it, and succeeds all the same. Seen from the end: when all disconnects have
      finished, the shutdown is reported complete under the notified value if and only if
      it was started. */
  lemma {:induction false} ShutdownHappensIff(s: State, v: Cc, now: nat, es: seq<Event>, limit: nat)
    requires Inv(s) && v.shn != s.cc.shn && (v.shn == SHN_NORMAL || v.shn == SHN_ABRUPT)
    requires NoWrites(es) && Admissible(Step(s, Write(v, now), limit), es, limit)
    requires !Run(Step(s, Write(v, now), limit), es, limit).inProgress
    ensures var starts := (v.en || !s.cc.en) && !s.inProgress;
            var s' := Step(s, Write(v, now), limit);
            var r := Run(s', es, limit);
            && (s'.isShn && s'.cc.shn == v.shn && s'.pending == s.pending + 1 <==> starts)
            && (r.csts.shst == SHST_COMPLETE && r.cc.shn == v.shn <==> starts)
            && (!starts ==> WriteCc(s, v, now, limit).ok && s'.cc.shn == s.cc.shn
                            && s'.cc.iosqes == s.cc.iosqes && s'.cc.iocqes == s.cc.iocqes)
  {
    RunKeepsInv(s, [Write(v, now)], limit);
    WithoutWrites(Step(s, Write(v, now), limit), es, limit);
  }

  /** The last completion or timer at or after the deadline always finishes the disconnect. */
  lemma {:induction false} DeadlineFinishes(s: State, queues: nat, now: nat, limit: nat)
    requires Inv(s) && s.inProgress && now >= s.deadline
    ensures !Step(s, DisconnectDone(queues, now), limit).inProgress
  {}

  // The code itself.

  class NvmfCtrlr {
    var cc: Cc
    var csts: Csts
    var disconnectInProgress: bool
    var disconnectIsShn: bool
    ghost var pending: nat
    var ccTimeoutTsc: nat
    var ccTimeoutTimer: bool

    ghost function Abs(): State
      reads this
    {
      State(cc, csts, disconnectInProgress, disconnectIsShn, pending, ccTimeoutTsc, ccTimeoutTimer)
    }

    method StartDisconnect(isShn: bool, now: nat, limit: nat)
      modifies this`ccTimeoutTimer, this`ccTimeoutTsc, this`disconnectInProgress, this`disconnectIsShn, this`pending
      ensures Abs() == Disconnect(old(Abs()), isShn, now, limit)
    {
      ccTimeoutTimer, ccTimeoutTsc := true, now + limit;
      disconnectInProgress, disconnectIsShn := true, isShn;
      pending := pending + 1;
    }

    /** The fields after EN and SHN. */
    method PropSetRest(v: Cc) returns (ok: bool)
      modifies this`cc
      ensures Abs() == WriteRest(old(Abs()), v).s && ok == WriteRest(old(Abs()), v).ok
    {
      if v.iosqes != cc.iosqes {
        cc := cc.(iosqes := v.iosqes);
      }
      if v.iocqes != cc.iocqes {
        cc := cc.(iocqes := v.iocqes);
      }
      if v.ams != cc.ams {
        return false;
      }
      if v.mps != cc.mps {
        return false;
      }
      if v.css != cc.css {
        if v.css > CSS_IOCS {
          return false;
        }
      }
      return true;
    }

    /** `nvmf_prop_set_cc`. */
    method PropSetCc(v: Cc, now: nat, limit: nat) returns (ok: bool)
      modifies this
      ensures Abs() == Step(old(Abs()), Write(v, now), limit)
      ensures ok == WriteCc(old(Abs()), v, now, limit).ok
    {
      var was := cc;
      if v.en != was.en {
        if v.en {
          cc := cc.(en := true);
          csts := csts.(rdy := true);
        } else {
          if disconnectInProgress {
            return true;
          }
          cc := cc.(en := false);
          StartDisconnect(false, now, limit);
        }
      }
      if v.shn != was.shn {
        if v.shn == SHN_NORMAL || v.shn == SHN_ABRUPT {
          if disconnectInProgress {
            return true;
          }
          cc := cc.(shn := v.shn);
          StartDisconnect(true, now, limit);
        } else if v.shn == 0 {
          cc := cc.(shn := 0);
        } else {
          return false;
        }
      }
      ok := PropSetRest(v);
    }

    /** `_nvmf_ctrlr_cc_reset_shn_done`, its timer standing in for it while queues are left. */
    method CcResetShnDone(queues: nat, now: nat)
      requires pending > 0
      modifies this
      ensures Abs() == Step(old(Abs()), DisconnectDone(queues, now), 0)
    {
      if queues > 1 {
        if now < ccTimeoutTsc {
          return;
        }
        csts := csts.(cfs := true);
      }
      ccTimeoutTimer := false;
      if disconnectIsShn {
        csts := csts.(shst := SHST_COMPLETE);
        disconnectIsShn := false;
      } else {
        cc, csts := CC_ZERO, CSTS_ZERO;
      }
      disconnectInProgress := false;
      pending := pending - 1;
    }
  }
}
