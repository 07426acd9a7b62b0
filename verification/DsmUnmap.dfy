/** Dataset Management deallocation over several ranges, resubmitted when the block layer is
    out of memory (nvmf/ctrlr_bdev.c:526-645). Unmaps complete asynchronously. */
module DsmUnmap {

  const SC_INTERNAL_DEVICE_ERROR := 0x06

  datatype Status = Status(sct: nat, sc: nat)

  const SUCCESS := Status(0, 0)

  /** What `spdk_bdev_unmap_blocks` returns. */
  datatype Outcome = Submitted | NoMem | HardError

  /** `count` and `rangeIndex` are the fields of `struct nvmf_bdev_ctrlr_unmap`; `freed`: the
      context is gone. History: `submitted` lists the ranges handed to the block layer,
      `inFlight` those not completed, `good` tells that every completion so far succeeded,
      `completed` counts the request's completions. */
  datatype State = State(
    nr: nat, count: int, rangeIndex: nat, queued: bool, freed: bool, status: Status,
    submitted: seq<nat>, inFlight: set<nat>, good: bool, hardError: bool, completed: nat)

  /** Outcomes of one call's submissions, long enough for all ranges left. */
  datatype Event =
    | Unmap(os: seq<Outcome>)      // the first call, from `nvmf_bdev_ctrlr_dsm_cmd`
    | Resubmit(os: seq<Outcome>)   // `nvmf_bdev_ctrlr_unmap_resubmit`
    | Cpl(range: nat, status: Status) // `nvmf_bdev_ctrlr_unmap_cpl`

  /** The loop over the ranges. */
  function Submit(s: State, os: seq<Outcome>): State
    requires s.rangeIndex <= s.nr && |os| >= s.nr - s.rangeIndex
    decreases s.nr - s.rangeIndex
  {
    if s.rangeIndex == s.nr then s
    else match os[0]
      case Submitted =>
        Submit(s.(count := s.count + 1, rangeIndex := s.rangeIndex + 1, submitted := s.submitted + [s.rangeIndex],
                  inFlight := s.inFlight + {s.rangeIndex}), os[1..])
      case NoMem => s.(count := s.count + 1, queued := true)
      case HardError => s.(status := s.status.(sc := SC_INTERNAL_DEVICE_ERROR), hardError := true)
  }

  /** The end of a call: with nothing counted the context is freed and the call returns
      "complete", which only the first caller acts on. */
  function Finish(s: State, acts: bool): State {
    if s.count != 0 then s
    else s.(freed := true, completed := s.completed + (if acts then 1 else 0))
  }

  function Step(s: State, e: Event): State
    requires Enabled(s, e)
  {
    match e
    case Unmap(os) => Finish(Submit(s, os), true)
    case Resubmit(os) => Finish(Submit(s.(count := s.count - 1, queued := false), os), false)
    case Cpl(range, status) =>
      var s' := s.(count := s.count - 1, inFlight := s.inFlight - {range}, good := s.good && status == SUCCESS,
                   status := if s.status == SUCCESS then status else s.status);
      if s'.count == 0 then s'.(freed := true, completed := s.completed + 1) else s'
  }

  predicate Enabled(s: State, e: Event) {
    match e
    case Unmap(os) => s == Start(s.nr) && |os| >= s.nr
    case Resubmit(os) => s.queued && !s.freed && s.rangeIndex <= s.nr && |os| >= s.nr - s.rangeIndex
    case Cpl(range, _) => range in s.inFlight && !s.freed
  }

  function Start(nr: nat): State {
    State(nr, 0, 0, false, false, SUCCESS, [], {}, true, false, 0)
  }

  /** Every range submitted so far, once, in order; the count is what is in flight plus one
      if the request is queued; the status tells of any failure. */
  ghost predicate Books(s: State) {
    && s.rangeIndex <= s.nr && |s.submitted| == s.rangeIndex
    && (forall i :: 0 <= i < |s.submitted| ==> s.submitted[i] == i)
    && (forall r :: r in s.inFlight ==> r < s.rangeIndex)
    && s.count == |s.inFlight| + (if s.queued then 1 else 0)
    && (s.status == SUCCESS <==> s.good && !s.hardError)
    && (s.hardError ==> !s.queued) && (s.queued ==> s.rangeIndex < s.nr)
  }

  /** The context is freed exactly when nothing is counted, and the request completes at
      most once, with nothing in flight. */
  ghost predicate Inv(s: State) {
    && Books(s) && s.freed == (s.count == 0) && s.completed <= (if s.freed then 1 else 0)
    && (!s.hardError && s.count != 0 ==> s.queued || s.rangeIndex == s.nr)
    && (!s.hardError && s.freed ==> s.rangeIndex == s.nr && s.completed == 1)
  }

  lemma {:induction false} SubmitKeepsBooks(s: State, os: seq<Outcome>)
    requires Books(s) && !s.queued && !s.hardError && |os| >= s.nr - s.rangeIndex
    ensures var t := Submit(s, os);
            && Books(t) && t.nr == s.nr && t.good == s.good && t.freed == s.freed && t.completed == s.completed
            && (!t.hardError && !t.queued ==> t.rangeIndex == t.nr)
            && s.inFlight <= t.inFlight && (t.inFlight == {} ==> t.rangeIndex == s.rangeIndex)
    decreases s.nr - s.rangeIndex
  {
    if s.rangeIndex < s.nr && os[0] == Submitted {
      var next := s.(count := s.count + 1, rangeIndex := s.rangeIndex + 1, submitted := s.submitted + [s.rangeIndex],
                     inFlight := s.inFlight + {s.rangeIndex});
      assert s.rangeIndex in next.inFlight;
      SubmitKeepsBooks(next, os[1..]);
    }
  }

  lemma {:induction false} StepKeepsInv(s: State, e: Event)
    requires Enabled(s, e) && (!e.Unmap? ==> Inv(s)) && s.nr > 0
    ensures e.Resubmit? && Step(s, e).freed ==> Books(Step(s, e)) && Step(s, e).completed == 0
    ensures !(e.Resubmit? && Step(s, e).freed) ==> Inv(Step(s, e))
    ensures Step(s, e).nr == s.nr
  {
    match e {
      case Unmap(os) => SubmitKeepsBooks(s, os);
      case Resubmit(os) => SubmitKeepsBooks(s.(count := s.count - 1, queued := false), os);
      case Cpl(range, status) =>
        assert |s.inFlight - {range}| == |s.inFlight| - 1;
    }
  }

  /** The request is over but nobody completed it. */
  predicate Lost(s: State) {
    s.freed && s.completed == 0
  }

  /** The request is lost if and only if a resubmission meets a hard error with nothing else
      in flight: its wrapper drops the returned "complete". */
  lemma {:induction false} LostIff(s: State, e: Event)
    requires Inv(s) && s.nr > 0 && Enabled(s, e) && !e.Unmap?
    ensures Lost(Step(s, e)) <==> e.Resubmit? && s.inFlight == {} && e.os[0] == HardError
  {
    StepKeepsInv(s, e);
    if e.Resubmit? {
      var d := s.(count := s.count - 1, queued := false);
      SubmitKeepsBooks(d, e.os);
      assert |s.inFlight| == 0 <==> s.inFlight == {};
      assert |Submit(d, e.os).inFlight| == 0 <==> Submit(d, e.os).inFlight == {};
      if e.os[0] == Submitted {
        SomethingInFlight(d, e.os);
      }
    }
  }

  lemma {:induction false} SomethingInFlight(s: State, os: seq<Outcome>)
    requires Books(s) && !s.queued && !s.hardError && s.rangeIndex < s.nr && |os| >= s.nr - s.rangeIndex && os[0] == Submitted
    ensures Submit(s, os).inFlight != {}
  {
    var next := s.(count := s.count + 1, rangeIndex := s.rangeIndex + 1, submitted := s.submitted + [s.rangeIndex],
                   inFlight := s.inFlight + {s.rangeIndex});
    assert s.rangeIndex in next.inFlight;
    SubmitKeepsBooks(next, os[1..]);
  }

  /** No resubmission meets a hard error while nothing is in flight. */
  predicate Harmless(s: State, e: Event) {
    e.Resubmit? && e.os != [] && s.inFlight == {} ==> e.os[0] != HardError
  }

  predicate Admissible(s: State, es: seq<Event>)
    decreases |es|
  {
    es == [] || (Enabled(s, es[0]) && !es[0].Unmap? && Harmless(s, es[0]) && Admissible(Step(s, es[0]), es[1..]))
  }

  function Run(s: State, es: seq<Event>): State
    requires Admissible(s, es)
    decreases |es|
  {
    if es == [] then s else Run(Step(s, es[0]), es[1..])
  }

  lemma {:induction false} RunKeepsInv(s: State, es: seq<Event>)
    requires Inv(s) && s.nr > 0 && Admissible(s, es)
    ensures Inv(Run(s, es)) && Run(s, es).nr == s.nr && (s.freed ==> es == []) && (!Lost(s) ==> !Lost(Run(s, es)))
    decreases |es|
  {
    if es != [] {
      StepKeepsInv(s, es[0]);
      LostIff(s, es[0]);
      RunKeepsInv(Step(s, es[0]), es[1..]);
    }
  }

  /** From the first call on, over every run without a harmful hard error: ranges are
      submitted once each and in order, the request completes exactly once when the context
      is freed, with nothing in flight, and it reports success exactly if every range was
      submitted and succeeded. */
  lemma {:induction false} UnmapCompletesOnce(nr: nat, os: seq<Outcome>, es: seq<Event>)
    requires nr > 0 && |os| >= nr && Admissible(Step(Start(nr), Unmap(os)), es)
    ensures var t := Run(Step(Start(nr), Unmap(os)), es);
            && Inv(t) && (t.freed <==> t.completed == 1) && (t.freed ==> t.inFlight == {} && !t.queued)
            && (t.freed ==> (t.status == SUCCESS <==> t.good && !t.hardError))
            && (t.freed && !t.hardError ==> t.rangeIndex == nr)
  {
    StepKeepsInv(Start(nr), Unmap(os));
    RunKeepsInv(Step(Start(nr), Unmap(os)), es);
  }

  /** Until the context is freed there is always something to come. */
  lemma {:induction false} NextEvent(s: State) returns (e: Event)
    requires Inv(s) && !s.freed
    ensures Enabled(s, e) && !e.Unmap? && Harmless(s, e)
  {
    if s.queued {
      e := Resubmit(seq(s.nr, _ => Submitted));
    } else {
      assert s.inFlight != {};
      var r :| r in s.inFlight;
      e := Cpl(r, SUCCESS);
    }
  }

  /** A lost request stays lost: no event is left that could complete it. */
  lemma {:induction false} LostForever(s: State, e: Event)
    requires Books(s) && Lost(s) && s.count == 0 && s.nr > 0 && (s.rangeIndex > 0 || s.hardError)
    ensures !Enabled(s, e)
  {}

  // What one call and one completion do.

  /** The ranges that a call hands over before it stops. */
  ghost predicate HandsOver(s: State, os: seq<Outcome>, k: nat) {
    && k <= s.nr - s.rangeIndex <= |os| && (forall i :: 0 <= i < k ==> os[i] == Submitted)
    && (k < s.nr - s.rangeIndex ==> os[k] != Submitted)
  }

  /** A call hands over ranges until one is refused. Out of memory leaves the request queued, any
      other refusal makes its status an internal device error and abandons the ranges left. */
  lemma {:induction false} CallLeadsTo(s: State, os: seq<Outcome>, k: nat)
    requires s.rangeIndex <= s.nr && HandsOver(s, os, k) && !s.queued && !s.hardError
    ensures var t := Submit(s, os);
            var stops := k < s.nr - s.rangeIndex;
            && t.rangeIndex == s.rangeIndex + k && (forall r :: r in t.inFlight <==> r in s.inFlight || s.rangeIndex <= r < t.rangeIndex)
            && t.submitted == s.submitted + seq(k, i => s.rangeIndex + i)
            && (t.queued <==> stops && os[k] == NoMem) && (t.hardError <==> stops && os[k] == HardError)
            && t.status == (if t.hardError then Status(s.status.sct, SC_INTERNAL_DEVICE_ERROR) else s.status)
    decreases k
  {
    if k > 0 {
      var next := s.(count := s.count + 1, rangeIndex := s.rangeIndex + 1, submitted := s.submitted + [s.rangeIndex],
                     inFlight := s.inFlight + {s.rangeIndex});
      CallLeadsTo(next, os[1..], k - 1);
      assert next.submitted + seq(k - 1, i => next.rangeIndex + i) == s.submitted + seq(k, i => s.rangeIndex + i);
    }
  }

  /** The first status of the completions that is an error. */
  function FirstError(status: Status, es: seq<Event>): Status
    decreases |es|
  {
    if es == [] then status
    else FirstError(if es[0].Cpl? && status == SUCCESS then es[0].status else status, es[1..])
  }

  /** Over every run without a hard error the request reports the first error of its ranges. */
  lemma {:induction false} FirstErrorIsReported(s: State, es: seq<Event>)
    requires Inv(s) && s.nr > 0 && Admissible(s, es) && !Run(s, es).hardError
    ensures Run(s, es).status == FirstError(s.status, es) && !s.hardError
    decreases |es|
  {
    if es != [] {
      var e, t := es[0], Step(s, es[0]);
      StepKeepsInv(s, e);
      LostIff(s, e);
      assert Run(s, es) == Run(t, es[1..]);
      StatusStays(s, e);
      hide Step;
      FirstErrorIsReported(t, es[1..]);
    }
  }

  lemma {:induction false} StatusStays(s: State, e: Event)
    requires Inv(s) && Enabled(s, e) && !e.Unmap?
    ensures var t := Step(s, e);
            && (s.hardError ==> t.hardError)
            && (!t.hardError ==> t.status == if e.Cpl? && s.status == SUCCESS then e.status else s.status)
  {
    if e.Resubmit? {
      SubmitStatus(s.(count := s.count - 1, queued := false), e.os);
    }
  }

  lemma {:induction false} SubmitStatus(s: State, os: seq<Outcome>)
    requires s.rangeIndex <= s.nr && |os| >= s.nr - s.rangeIndex
    ensures var t := Submit(s, os); (s.hardError ==> t.hardError) && (!t.hardError ==> t.status == s.status)
    decreases s.nr - s.rangeIndex
  {
    if s.rangeIndex < s.nr && os[0] == Submitted {
      SubmitStatus(s.(count := s.count + 1, rangeIndex := s.rangeIndex + 1, submitted := s.submitted + [s.rangeIndex],
                      inFlight := s.inFlight + {s.rangeIndex}), os[1..]);
    }
  }

  // The code itself.

  class NvmfBdevCtrlrUnmap {
    const nr: nat
    var count: int
    var rangeIndex: nat
    var status: Status
    ghost var queued: bool
    ghost var freed: bool
    ghost var submitted: seq<nat>
    ghost var inFlight: set<nat>
    ghost var good: bool
    ghost var hardError: bool
    ghost var completed: nat

    constructor (nr: nat)
      ensures Abs() == Start(nr) && this.nr == nr
    {
      this.nr, count, rangeIndex, status, queued, freed := nr, 0, 0, SUCCESS, false, false;
      submitted, inFlight, good, hardError, completed := [], {}, true, false, 0;
    }

    ghost function Abs(): State
      reads this
    {
      State(nr, count, rangeIndex, queued, freed, status, submitted, inFlight, good, hardError, completed)
    }

    /** The loop of `nvmf_bdev_ctrlr_unmap`: true if it returns because of -ENOMEM. */
    method SubmitRanges(os: seq<Outcome>) returns (waits: bool)
      requires rangeIndex <= nr && |os| >= nr - rangeIndex && !queued
      modifies this
      ensures Abs() == Submit(old(Abs()), os) && waits == queued
    {
      var i, k := rangeIndex, 0;
      while i < nr
        invariant i == rangeIndex <= nr && k + (nr - i) <= |os| && !queued
        invariant Submit(old(Abs()), os) == Submit(Abs(), os[k..])
      {
        count := count + 1;
        match os[k] {
          case NoMem =>
            queued := true;
            return true;
          case HardError =>
            status := status.(sc := SC_INTERNAL_DEVICE_ERROR);
            count := count - 1;
            hardError := true;
            return false;
          case Submitted =>
            submitted, inFlight := submitted + [i], inFlight + {i};
        }
        rangeIndex := rangeIndex + 1;
        assert os[k..][1..] == os[k + 1..];
        i, k := i + 1, k + 1;
      }
      return false;
    }

    /** `nvmf_bdev_ctrlr_unmap`; `again`: called by the resubmit wrapper, which ignores the
        result. */
    method UnmapRanges(os: seq<Outcome>, again: bool) returns (complete: bool)
      requires Enabled(Abs(), if again then Resubmit(os) else Unmap(os)) && (again ==> Inv(Abs()))
      modifies this
      ensures Abs() == Step(old(Abs()), if again then Resubmit(os) else Unmap(os))
      ensures complete <==> freed
    {
      if again {
        count := count - 1;
        queued := false;
      }
      SubmitKeepsBooks(Abs(), os);
      hide Books, Inv;
      var waits := SubmitRanges(os);
      if waits {
        QueuedIsCounted(Abs());
        return false;
      }
      if count == 0 {
        freed := true;
        completed := completed + (if again then 0 else 1);
        return true;
      }
      return false;
    }

    /** `nvmf_bdev_ctrlr_unmap_cpl`. */
    method UnmapCpl(ghost range: nat, st: Status) returns (complete: bool)
      requires Enabled(Abs(), Cpl(range, st))
      modifies this
      ensures Abs() == Step(old(Abs()), Cpl(range, st))
      ensures complete <==> completed == old(completed) + 1
    {
      count := count - 1;
      if status.sct == 0 && status.sc == 0 {
        status := st;
      }
      inFlight, good := inFlight - {range}, good && st == SUCCESS;
      if count == 0 {
        freed := true;
        completed := completed + 1;
        return true;
      }
      return false;
    }
  }

  lemma QueuedIsCounted(s: State)
    requires Books(s) && s.queued
    ensures s.count != 0
  {}
}
