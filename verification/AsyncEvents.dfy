/** Asynchronous events of one controller, section 5.2 of NVM Express Base Specification 1.4:
    the array of outstanding requests, the queue of undelivered events and the notice masks
    (nvmf/ctrlr.c:2120-2147, 2188-2205, 3120-3156, 3650-3709, 3814-3857). */
module AsyncEvents {
  import opened Collections
  import opened Options

  const MAX_ASYNC_EVENTS := 4

  /** `aer`: the outstanding requests, by slot. `delivered`: which request carried which
      event, in order; `ended`: the requests that are over, in whatever way; `notified`: the
      events that were raised. */
  datatype State = State(
    aer: seq<nat>, events: seq<int>, delivered: seq<(nat, int)>, ended: seq<nat>, notified: seq<int>)

  datatype Event =
    | Request(id: nat)  // `nvmf_ctrlr_async_event_request`
    | Notify(event: int) // `nvmf_ctrlr_async_event_notification`
    | Abort(id: nat)    // `nvmf_qpair_abort_aer`
    | EndAll            // `nvmf_ctrlr_abort_aer`, `nvmf_qpair_free_aer`

  /** Swap-removal: the last request takes the place of the removed one. */
  function RemoveAt(aer: seq<nat>, i: nat): (r: seq<nat>)
    requires i < |aer|
    ensures |r| == |aer| - 1
  {
    aer[i := aer[|aer| - 1]][..|aer| - 1]
  }

  function Step(s: State, e: Event): State {
    match e
    case Request(id) =>
      if |s.aer| >= MAX_ASYNC_EVENTS then s.(ended := s.ended + [id])
      else if s.events != [] then
        s.(events := s.events[1..], delivered := s.delivered + [(id, s.events[0])], ended := s.ended + [id])
      else s.(aer := s.aer + [id])
    case Notify(event) =>
      var s' := s.(notified := s.notified + [event]);
      if s.aer == [] then s'.(events := s.events + [event])
      else
        var last := |s.aer| - 1;
        s'.(aer := s.aer[..last], delivered := s.delivered + [(s.aer[last], event)], ended := s.ended + [s.aer[last]])
    case Abort(id) =>
      var i := IndexOf(s.aer, id);
      if i == |s.aer| then s else s.(aer := RemoveAt(s.aer, i), ended := s.ended + [id])
    case EndAll => s.(aer := [], ended := s.ended + s.aer)
  }

  function EventsOf(log: seq<(nat, int)>): (r: seq<int>)
    ensures |r| == |log|
  {
    if log == [] then [] else [log[0].1] + EventsOf(log[1..])
  }

  ghost predicate Inv(s: State) {
    && |s.aer| <= MAX_ASYNC_EVENTS
    && (s.aer == [] || s.events == [])                       // never both waiting
    && EventsOf(s.delivered) + s.events == s.notified        // in order, none lost, none twice
    && Distinct(s.aer + s.ended)                             // outstanding once or over once
    && forall k :: 0 <= k < |s.delivered| ==> s.delivered[k].0 in s.ended
  }

  /** A request is submitted once. */
  ghost predicate Enabled(s: State, e: Event) {
    e.Request? ==> e.id !in s.aer && e.id !in s.ended
  }

  lemma {:induction false} EventsOfAppend(log: seq<(nat, int)>, last: (nat, int))
    ensures EventsOf(log + [last]) == EventsOf(log) + [last.1]
  {
    if log != [] {
      assert (log + [last])[1..] == log[1..] + [last];
      EventsOfAppend(log[1..], last);
    }
  }

  /** Taking a request out of the array and listing it as over is a rearrangement. */
  lemma {:induction false} EndOneDistinct(aer: seq<nat>, ended: seq<nat>, i: nat)
    requires i < |aer| && Distinct(aer + ended)
    ensures Distinct(RemoveAt(aer, i) + (ended + [aer[i]]))
  {
    var all, out := aer + ended, RemoveAt(aer, i) + (ended + [aer[i]]);
    var n := |aer|;
    forall j, k | 0 <= j < k < |out| ensures out[j] != out[k] {
      var a, b := Source(n, |out|, i, j), Source(n, |out|, i, k);
      assert out[j] == all[a] && out[k] == all[b];
    }
  }

  /** Where position `k` after a swap-removal at `i` was before; all positions differ. */
  function Source(n: nat, total: nat, i: nat, k: nat): nat
    requires i < n <= total && k < total
  {
    if k == total - 1 then i else if k == i && k < n - 1 then n - 1 else if k < n - 1 then k else k + 1
  }

  lemma {:induction false} NewDistinct(aer: seq<nat>, ended: seq<nat>, id: nat)
    requires Distinct(aer + ended) && id !in aer && id !in ended
    ensures Distinct(aer + (ended + [id])) && Distinct((aer + [id]) + ended)
  {
    var all, late, early := aer + ended, aer + (ended + [id]), (aer + [id]) + ended;
    assert late == all + [id];
    forall k | 0 <= k < |all| ensures all[k] != id {
      assert all[k] in aer || all[k] in ended;
    }
    forall j, k | 0 <= j < k < |early| ensures early[j] != early[k] {
      assert early[j] == if j < |aer| then all[j] else if j == |aer| then id else all[j - 1];
      assert early[k] == if k < |aer| then all[k] else if k == |aer| then id else all[k - 1];
    }
  }

  lemma {:induction false} EndAllDistinct(aer: seq<nat>, ended: seq<nat>)
    requires Distinct(aer + ended)
    ensures Distinct([] + (ended + aer))
  {
    var all, out := aer + ended, [] + (ended + aer);
    forall j, k | 0 <= j < k < |out| ensures out[j] != out[k] {
      assert out[j] == all[if j < |ended| then j + |aer| else j - |ended|];
      assert out[k] == all[if k < |ended| then k + |aer| else k - |ended|];
    }
  }

  lemma {:induction false} DeliverKeepsInv(s: State, s': State, id: nat, event: int)
    requires Inv(s) && |s'.aer| <= |s.aer| && Distinct(s'.aer + s'.ended)
    requires s'.delivered == s.delivered + [(id, event)] && s'.ended == s.ended + [id] && (s'.aer == [] || s'.events == [])
    requires || ([event] + s'.events == s.events && s'.notified == s.notified)
             || (s.events == s'.events == [] && s'.notified == s.notified + [event])
    ensures Inv(s')
  {
    EventsOfAppend(s.delivered, (id, event));
    var before := EventsOf(s.delivered);
    assert before + [event] + s'.events == before + ([event] + s'.events);
    assert s.events == [] ==> before + s.events == before && before + [event] + [] == before + [event];
  }

  lemma {:induction false} StepKeepsInv(s: State, e: Event)
    requires Inv(s) && Enabled(s, e)
    ensures Inv(Step(s, e))
  {
    match e {
      case Request(id) =>
        NewDistinct(s.aer, s.ended, id);
        if |s.aer| < MAX_ASYNC_EVENTS && s.events != [] {
          DeliverKeepsInv(s, Step(s, e), id, s.events[0]);
        }
      case Notify(event) =>
        if s.aer != [] {
          var last := |s.aer| - 1;
          EndOneDistinct(s.aer, s.ended, last);
          assert RemoveAt(s.aer, last) == s.aer[..last];
          DeliverKeepsInv(s, Step(s, e), s.aer[last], event);
        } else {
          assert EventsOf(s.delivered) + s.events + [event] == EventsOf(s.delivered) + (s.events + [event]);
        }
      case Abort(id) =>
        var i := IndexOf(s.aer, id);
        if i < |s.aer| {
          EndOneDistinct(s.aer, s.ended, i);
        }
      case EndAll =>
        EndAllDistinct(s.aer, s.ended);
    }
  }

  ghost predicate Admissible(s: State, es: seq<Event>)
    decreases |es|
  {
    es == [] || (Enabled(s, es[0]) && Admissible(Step(s, es[0]), es[1..]))
  }

  function Run(s: State, es: seq<Event>): State
    decreases |es|
  {
    if es == [] then s else Run(Step(s, es[0]), es[1..])
  }

  lemma {:induction false} RunKeepsInv(s: State, es: seq<Event>)
    requires Inv(s) && Admissible(s, es)
    ensures Inv(Run(s, es))
    decreases |es|
  {
    if es != [] {
      StepKeepsInv(s, es[0]);
      RunKeepsInv(Step(s, es[0]), es[1..]);
    }
  }

  /** Over every run of a fresh controller, the events delivered followed by those still
      queued are the events raised, in order; requests and events are never both waiting; at
      most four requests wait, and none waits twice, ends twice or waits after it ended. */
  lemma {:induction false} EventsDeliveredInOrder(es: seq<Event>)
    requires Admissible(State([], [], [], [], []), es)
    ensures var t := Run(State([], [], [], [], []), es);
            && EventsOf(t.delivered) + t.events == t.notified && (t.aer == [] || t.events == [])
            && |t.aer| <= MAX_ASYNC_EVENTS && Distinct(t.aer + t.ended)
  {
    RunKeepsInv(State([], [], [], [], []), es);
  }

  /** Raised while requests are waiting, up to four events are all delivered, the youngest
      request first. */
  lemma {:induction false} YoungestRequestFirst(s: State, es: seq<int>)
    requires Inv(s) && |es| <= |s.aer|
    ensures var s' := Run(s, Notices(es));
            && s'.events == s.events && s'.aer == s.aer[..|s.aer| - |es|]
            && |s'.delivered| == |s.delivered| + |es|
            && (forall k :: 0 <= k < |s.delivered| ==> s'.delivered[k] == s.delivered[k])
            && forall k :: 0 <= k < |es| ==> s'.delivered[|s.delivered| + k] == (s.aer[|s.aer| - 1 - k], es[k])
    decreases |es|
  {
    if es != [] {
      var next := Step(s, Notify(es[0]));
      StepKeepsInv(s, Notify(es[0]));
      hide Inv;
      assert next.aer == s.aer[..|s.aer| - 1] && next.events == s.events;
      assert next.delivered == s.delivered + [(s.aer[|s.aer| - 1], es[0])];
      assert Notices(es)[1..] == Notices(es[1..]);
      var s' := Run(s, Notices(es));
      assert s' == Run(next, Notices(es[1..]));
      hide Step, Run, Notices;
      YoungestRequestFirst(next, es[1..]);
      forall k | 0 <= k < |es| ensures s'.delivered[|s.delivered| + k] == (s.aer[|s.aer| - 1 - k], es[k]) {
        if k > 0 {
          assert es[k] == es[1..][k - 1];
        }
      }
    }
  }

  function Notices(es: seq<int>): (r: seq<Event>)
    ensures |r| == |es| && forall k :: 0 <= k < |es| ==> r[k] == Notify(es[k])
  {
    if es == [] then [] else [Notify(es[0])] + Notices(es[1..])
  }

  /** What a request comes to: it is refused if and only if four are waiting, and else takes the
      oldest event that waits, or waits itself behind the others. */
  lemma {:induction false} RequestLeadsTo(s: State, id: nat)
    requires Inv(s) && Enabled(s, Request(id))
    ensures var t := Step(s, Request(id));
            && (id in t.aer <==> |s.aer| < 4 && s.events == []) && (id in t.ended <==> id !in t.aer)
            && t.aer == (if id in t.aer then s.aer + [id] else s.aer) && t.notified == s.notified
            && t.ended == (if id in t.aer then s.ended else s.ended + [id])
            && (|t.delivered| > |s.delivered| <==> |s.aer| < 4 && s.events != [])
            && (if |t.delivered| > |s.delivered|
                then t.delivered == s.delivered + [(id, s.events[0])] && [s.events[0]] + t.events == s.events
                else t.delivered == s.delivered && t.events == s.events)
  {}

  /** An aborted request that is waiting leaves the array and is over, without an event; all
      others go on waiting, and the last one takes its place. One that does not wait changes
      nothing. */
  lemma {:induction false} AbortEnds(s: State, id: nat)
    requires Inv(s)
    ensures var t := Step(s, Abort(id));
            && t.events == s.events && t.delivered == s.delivered && t.notified == s.notified
            && if id !in s.aer then t == s
               else && t.ended == s.ended + [id] && id !in t.aer && |t.aer| == |s.aer| - 1
                    && (forall r :: r in s.aer && r != id ==> r in t.aer)
                    && forall k :: 0 <= k < |t.aer| ==> t.aer[k] == if s.aer[k] == id then s.aer[|s.aer| - 1] else s.aer[k]
  {
    var t := Step(s, Abort(id));
    var i, n := IndexOf(s.aer, id), |s.aer|;
    assert s.aer == (s.aer + s.ended)[..n] && Distinct(s.aer);
    if i < n {
      forall r | r in s.aer && r != id ensures r in t.aer {
        var k :| 0 <= k < n && s.aer[k] == r;
        assert t.aer[if k == n - 1 then i else k] == r;
      }
    }
  }

  /** Ending all of them, in the order they wait, leaves nobody waiting and delivers nothing. */
  lemma {:induction false} EndAllEnds(s: State)
    ensures Step(s, EndAll) == State([], s.events, s.delivered, s.ended + s.aer, s.notified)
  {}

  /** A request that is over stays so and carries no event any more. */
  lemma {:induction false} OverForGood(s: State, es: seq<Event>, id: nat)
    requires Inv(s) && Admissible(s, es) && id in s.ended
    ensures var t := Run(s, es);
            && id in t.ended && id !in t.aer && |t.delivered| >= |s.delivered|
            && forall k :: |s.delivered| <= k < |t.delivered| ==> t.delivered[k].0 != id
    decreases |es|
  {
    NotBoth(s, id);
    if es != [] {
      var next := Step(s, es[0]);
      StepKeepsInv(s, es[0]);
      DeliversWaiting(s, es[0]);
      NotBoth(next, id);
      hide Step, Inv, IndexOf;
      OverForGood(next, es[1..], id);
      forall k | |s.delivered| <= k < |next.delivered| ensures next.delivered[k].0 != id {
        assert next.delivered[k].0 in s.aer || es[0] == Request(next.delivered[k].0);
      }
      RunExtends(next, es[1..]);
    }
  }

  lemma {:induction false} NotBoth(s: State, id: nat)
    requires Inv(s) && id in s.ended
    ensures id !in s.aer
  {
    var all := s.aer + s.ended;
    var k :| 0 <= k < |s.ended| && s.ended[k] == id;
    assert all[|s.aer| + k] == id;
    forall j | 0 <= j < |s.aer| ensures s.aer[j] != id {
      assert all[j] == s.aer[j];
    }
  }

  /** Only a waiting request, or the one just made, is given an event; whoever is over stays so. */
  lemma {:induction false} DeliversWaiting(s: State, e: Event)
    requires Inv(s) && Enabled(s, e)
    ensures var t := Step(s, e);
            && s.delivered <= t.delivered && (forall id :: id in s.ended ==> id in t.ended)
            && forall k :: |s.delivered| <= k < |t.delivered| ==> t.delivered[k].0 in s.aer || e == Request(t.delivered[k].0)
  {}

  lemma {:induction false} RunExtends(s: State, es: seq<Event>)
    ensures s.delivered <= Run(s, es).delivered
    decreases |es|
  {
    if es != [] {
      RunExtends(Step(s, es[0]), es[1..]);
    }
  }

  /** An aborted request never carries an event, whatever is raised later. */
  lemma {:induction false} AbortedStaysSilent(s: State, id: nat, es: seq<Event>)
    requires Inv(s) && id in s.aer && Admissible(Step(s, Abort(id)), es)
    ensures var t := Run(Step(s, Abort(id)), es);
            && id in t.ended && id !in t.aer && |t.delivered| >= |s.delivered|
            && forall k :: |s.delivered| <= k < |t.delivered| ==> t.delivered[k].0 != id
  {
    StepKeepsInv(s, Abort(id));
    AbortEnds(s, id);
    OverForGood(Step(s, Abort(id)), es, id);
  }

  // Masks: a kind of notice is raised at most once until the host has read its log page.

  /** Whether the host has the notice enabled, and whether the event is one the code knows:
      an error event is masked before its type is looked at. */
  datatype Cause = Disabled | Unknown | Proper

  datatype MaskEvent = Change(kind: nat, cause: Cause) | Read(kind: nat)

  /** `nvmf_ctrlr_mask_aen` and `nvmf_ctrlr_unmask_aen`: which changes raise a notice. */
  function Raised(masked: set<nat>, ms: seq<MaskEvent>): seq<nat>
    decreases |ms|
  {
    if ms == [] then []
    else match ms[0]
      case Read(kind) => Raised(masked - {kind}, ms[1..])
      case Change(kind, cause) =>
        if cause.Disabled? || kind in masked then Raised(masked, ms[1..])
        else if cause.Proper? then [kind] + Raised(masked + {kind}, ms[1..])
        else Raised(masked + {kind}, ms[1..])
  }

  /** The first enabled change of this kind is a proper one. */
  predicate FirstIsProper(ms: seq<MaskEvent>, kind: nat) {
    ms != [] && (if ms[0].Change? && ms[0].kind == kind && !ms[0].cause.Disabled? then ms[0].cause.Proper?
                 else FirstIsProper(ms[1..], kind))
  }

  function Count(kinds: seq<nat>, kind: nat): nat {
    if kinds == [] then 0 else (if kinds[0] == kind then 1 else 0) + Count(kinds[1..], kind)
  }

  function Reads(ms: seq<MaskEvent>, kind: nat): nat {
    if ms == [] then 0 else (if ms[0] == Read(kind) then 1 else 0) + Reads(ms[1..], kind)
  }

  /** However many changes there are, notices of a kind outnumber the host's reads of its
      log page by at most one; and without a read the host hears of a change exactly if the
      first one it has enabled is proper: an unknown error event silences the ones after it. */
  lemma {:induction false} NoticesCoalesce(masked: set<nat>, ms: seq<MaskEvent>, kind: nat)
    ensures Count(Raised(masked, ms), kind) <= Reads(ms, kind) + (if kind in masked then 0 else 1)
    ensures kind !in masked && Read(kind) !in ms ==> Count(Raised(masked, ms), kind) == if FirstIsProper(ms, kind) then 1 else 0
    decreases |ms|
  {
    if ms != [] {
      assert forall m :: m in ms <==> m == ms[0] || m in ms[1..];
      match ms[0] {
        case Read(k) => NoticesCoalesce(masked - {k}, ms[1..], kind);
        case Change(k, cause) =>
          NoticesCoalesce(if cause.Disabled? || k in masked then masked else masked + {k}, ms[1..], kind);
          if k == kind && Read(kind) !in ms {
            NoReadNoNotice(masked + {k}, ms[1..], kind);
          }
      }
    }
  }

  lemma {:induction false} NoReadNoNotice(masked: set<nat>, ms: seq<MaskEvent>, kind: nat)
    requires kind in masked && Read(kind) !in ms
    ensures Count(Raised(masked, ms), kind) == 0
    decreases |ms|
  {
    if ms != [] {
      match ms[0] {
        case Read(k) => NoReadNoNotice(masked - {k}, ms[1..], kind);
        case Change(k, cause) => NoReadNoNotice(if cause.Disabled? || k in masked then masked else masked + {k}, ms[1..], kind);
      }
    }
  }

  // The code itself.

  datatype Result = Asynchronous | LimitExceeded | Delivered(event: int)

  class NvmfCtrlr {
    const aerReq: array<Option<nat>>
    var nrAerReqs: nat
    var asyncEvents: seq<int>

    constructor ()
      ensures Valid() && Outstanding() == [] && asyncEvents == []
    {
      aerReq := new Option<nat>[MAX_ASYNC_EVENTS](i => None);
      nrAerReqs, asyncEvents := 0, [];
    }

    /** The array is gap-free: exactly the first `nrAerReqs` slots are taken. */
    ghost predicate Valid()
      reads this, aerReq
    {
      && aerReq.Length == MAX_ASYNC_EVENTS && nrAerReqs <= MAX_ASYNC_EVENTS
      && forall i :: 0 <= i < aerReq.Length ==> (aerReq[i].Some? <==> i < nrAerReqs)
    }

    ghost function Outstanding(): (r: seq<nat>)
      reads this, aerReq
      requires Valid()
      ensures |r| == nrAerReqs && forall i :: 0 <= i < |r| ==> aerReq[i] == Some(r[i])
    {
      seq(nrAerReqs, i requires 0 <= i < nrAerReqs && Valid() reads this, aerReq => aerReq[i].value)
    }

    /** What this controller's part of `Step` must be, the logs left aside. */
    ghost function After(e: Event): State
      reads this, aerReq
      requires Valid()
    {
      Step(State(Outstanding(), asyncEvents, [], [], []), e)
    }

    /** `nvmf_ctrlr_async_event_request`. */
    method AsyncEventRequest(id: nat) returns (r: Result)
      requires Valid()
      modifies this, aerReq
      ensures Valid() && Outstanding() == old(After(Request(id))).aer && asyncEvents == old(After(Request(id))).events
      ensures r.Delivered? <==> old(After(Request(id))).delivered != []
      ensures r.Delivered? ==> old(After(Request(id))).delivered == [(id, r.event)]
      ensures r.LimitExceeded? <==> old(nrAerReqs) == MAX_ASYNC_EVENTS
      ensures r.Asynchronous? <==> old(After(Request(id))).ended == []
    {
      if nrAerReqs >= MAX_ASYNC_EVENTS {
        return LimitExceeded;
      }
      if asyncEvents != [] {
        r := Delivered(asyncEvents[0]);
        asyncEvents := asyncEvents[1..];
        return;
      }
      aerReq[nrAerReqs] := Some(id);
      nrAerReqs := nrAerReqs + 1;
      return Asynchronous;
    }

    /** `nvmf_ctrlr_async_event_notification`: the request it completes, if any. */
    method AsyncEventNotification(event: int) returns (completed: Option<nat>)
      requires Valid()
      modifies this, aerReq
      ensures Valid() && Outstanding() == old(After(Notify(event))).aer && asyncEvents == old(After(Notify(event))).events
      ensures match completed
              case None => old(After(Notify(event))).delivered == []
              case Some(id) => old(After(Notify(event))).delivered == [(id, event)]
    {
      if nrAerReqs == 0 {
        asyncEvents := asyncEvents + [event];
        return None;
      }
      nrAerReqs := nrAerReqs - 1;
      completed := aerReq[nrAerReqs];
      aerReq[nrAerReqs] := None;
    }

    /** The removal of `nvmf_qpair_abort_aer`: the last request moves to the freed slot. */
    method CloseGap(i: nat)
      requires Valid() && i < nrAerReqs
      modifies this`nrAerReqs, aerReq
      ensures Valid() && Outstanding() == RemoveAt(old(Outstanding()), i)
    {
      aerReq[i] := None;
      nrAerReqs := nrAerReqs - 1;
      if i < nrAerReqs {
        aerReq[i] := aerReq[nrAerReqs];
        aerReq[nrAerReqs] := None;
      }
    }

    /** `nvmf_qpair_abort_aer` on the admin queue. */
    method AbortAer(id: nat) returns (found: bool)
      requires Valid()
      modifies this`nrAerReqs, aerReq
      ensures Valid() && Outstanding() == old(After(Abort(id))).aer && found == (id in old(Outstanding()))
    {
      ghost var was := Outstanding();
      for i := 0 to nrAerReqs
        invariant Valid() && Outstanding() == was && nrAerReqs == |was|
        invariant IndexOf(was, id) == i + IndexOf(was[i..], id)
      {
        assert was[i..][1..] == was[i + 1..];
        if aerReq[i] == Some(id) {
          CloseGap(i);
          return true;
        }
      }
      return false;
    }

    /** `nvmf_ctrlr_abort_aer`: the requests it completes, in order. */
    method AbortAllAers() returns (aborted: seq<nat>)
      requires Valid()
      modifies this`nrAerReqs, aerReq
      ensures Valid() && Outstanding() == [] && aborted == old(Outstanding()) == old(After(EndAll)).ended
    {
      aborted := [];
      for i := 0 to nrAerReqs
        invariant |aborted| == i && nrAerReqs == old(nrAerReqs) && aerReq.Length == MAX_ASYNC_EVENTS
        invariant forall k :: 0 <= k < aerReq.Length ==>
          aerReq[k] == if k < i then None else old(aerReq[k])
        invariant forall k :: 0 <= k < i ==> old(aerReq[k]) == Some(aborted[k])
      {
        aborted := aborted + [aerReq[i].value];
        aerReq[i] := None;
      }
      nrAerReqs := 0;
    }
  }
}
