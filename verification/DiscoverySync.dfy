/** Keeping the attached subsystems in step with a discovery controller's log page
    (nvme/bdev_nvme.c:5572-5581, 5644-5713, 5734-5872, 5897-5998), for one discovery service
    that is not being stopped. */
module DiscoverySync {
  import opened Options

  /** A log page entry; two entries are the same if all their bytes are: `rest` is whatever
      else they hold. */
  datatype Entry = Entry(nvm: bool, subnqn: nat, rest: nat)

  /** An entry context; `name` is the number in the name of the controller it created. */
  datatype Known = Known(entry: Entry, name: nat)

  predicate Knows(known: seq<Known>, e: Entry) {
    exists i :: 0 <= i < |known| && known[i].entry == e
  }

  /** The first context with this subsystem. */
  function BySubnqn(known: seq<Known>, subnqn: nat): (i: nat)
    ensures i <= |known|
    ensures i < |known| ==> known[i].entry.subnqn == subnqn
    ensures i == |known| ==> forall j :: 0 <= j < |known| ==> known[j].entry.subnqn != subnqn
  {
    if known == [] || known[0].entry.subnqn == subnqn then 0 else 1 + BySubnqn(known[1..], subnqn)
  }

  /** `attaching` counts the attaches started. */
  datatype Synced = Synced(known: seq<Known>, index: nat, attaching: nat)

  /** One entry of the page; `starts`: `bdev_nvme_create` succeeds. */
  function SyncOne(s: Synced, e: Entry, starts: bool): Synced {
    if !e.nvm || Knows(s.known, e) then s
    else
      var i := BySubnqn(s.known, e.subnqn);
      var name := if i < |s.known| then s.known[i].name else s.index;
      var index := if i < |s.known| then s.index else s.index + 1;
      if starts then Synced(s.known + [Known(e, name)], index, s.attaching + 1) else s.(index := index)
  }

  /** The loop of `discovery_log_page_cb` over the first `n` entries. */
  function Sync(s: Synced, page: seq<Entry>, starts: seq<bool>, n: nat): Synced
    requires n <= |page| == |starts|
  {
    if n == 0 then s else SyncOne(Sync(s, page, starts, n - 1), page[n - 1], starts[n - 1])
  }

  /** `discovery_remove_controllers`: what is not on the page any more goes. */
  function Keep(known: seq<Known>, page: seq<Entry>): (r: seq<Known>)
    ensures |r| <= |known|
  {
    if known == [] then []
    else (if known[0].entry in page then [known[0]] else []) + Keep(known[1..], page)
  }

  // The service.

  /** `fetching`: how many log page commands are outstanding; `page`: the page being worked on.
      History: `fetches` counts the commands sent, `pages` the pages that arrived, `cleanups`
      the pages worked off and `overwritten` those that another one replaced before. */
  datatype State = State(
    known: seq<Known>, index: nat, inProgress: bool, pending: bool, attaching: nat, page: Option<seq<Entry>>,
    fetching: nat, fetches: nat, pages: nat, cleanups: nat, overwritten: nat)

  datatype Event =
    | Aer                                        // `discovery_aer_cb`
    | Page(page: seq<Entry>, starts: seq<bool>)  // `discovery_log_page_cb`
    | PageFailed                                 // a command that fails or cannot be sent
    | AttachDone                                 // `discovery_attach_controller_done`
    | Reconnected                                // `discovery_poller`: connected, for the first time or again

  /** `get_discovery_log_page`, its assertion `in_progress == false` left aside. */
  function GetLogPage(s: State): State {
    s.(inProgress := true, fetching := s.fetching + 1, fetches := s.fetches + 1)
  }

  /** `discovery_remove_controllers` and `discovery_complete`. */
  function CleanUp(s: State): State
    requires s.page.Some?
  {
    var s' := s.(known := Keep(s.known, s.page.value), page := None, inProgress := false, cleanups := s.cleanups + 1);
    if s.pending then GetLogPage(s'.(pending := false)) else s'
  }

  /** `discovery_log_page_cb`; a page that arrives while attaches are in progress, which its
      assertion `attach_in_progress == 0` denies, replaces the page they belong to. */
  function PageStep(s: State, page: seq<Entry>, starts: seq<bool>): State
    requires |page| == |starts| && s.fetching > 0
  {
    var r := Sync(Synced(s.known, s.index, s.attaching), page, starts, |page|);
    var s' := s.(known := r.known, index := r.index, attaching := r.attaching, page := Some(page), fetching := s.fetching - 1,
                 pages := s.pages + 1, overwritten := s.overwritten + (if s.page.Some? then 1 else 0));
    if r.attaching == 0 then CleanUp(s') else s'
  }

  /** The poller looks at nothing before it reconnects. */
  predicate Enabled(s: State, e: Event) {
    match e
    case Page(page, starts) => s.fetching > 0 && |page| == |starts|
    case PageFailed => s.fetching > 0
    case AttachDone => s.attaching > 0 && s.page.Some?
    case Reconnected => true
    case Aer => true
  }

  function Step(s: State, e: Event): State
    requires Enabled(s, e)
  {
    match e
    case Aer => if s.inProgress then s.(pending := true) else GetLogPage(s)
    case Page(page, starts) => PageStep(s, page, starts)
    case PageFailed => s.(fetching := s.fetching - 1)
    case AttachDone => if s.attaching == 1 then CleanUp(s.(attaching := 0)) else s.(attaching := s.attaching - 1)
    case Reconnected => GetLogPage(s)
  }

  /** No entry twice; subsystems share a name exactly if they are the same. */
  predicate KnownOk(known: seq<Known>, index: nat) {
    && (forall i, j :: 0 <= i < j < |known| ==> known[i].entry != known[j].entry)
    && (forall i, j :: 0 <= i < |known| && 0 <= j < |known| ==>
          (known[i].entry.subnqn == known[j].entry.subnqn <==> known[i].name == known[j].name))
    && forall i :: 0 <= i < |known| ==> known[i].entry.nvm && known[i].name < index
  }

  predicate Inv(s: State) {
    && KnownOk(s.known, s.index)
    && (s.page.Some? <==> s.attaching > 0) && (s.pending ==> s.inProgress)
    && s.pages == s.cleanups + s.overwritten + (if s.page.Some? then 1 else 0)
  }

  // One round.

  lemma {:induction false} SyncOneOk(s: Synced, e: Entry, starts: bool)
    requires KnownOk(s.known, s.index)
    ensures var t := SyncOne(s, e, starts);
            && KnownOk(t.known, t.index) && t.attaching == s.attaching + (|t.known| - |s.known|)
            && |s.known| <= |t.known| && t.known[..|s.known|] == s.known
  {
    var t := SyncOne(s, e, starts);
    if e.nvm && !Knows(s.known, e) && starts {
      assert forall i :: 0 <= i < |s.known| ==> t.known[i] == s.known[i];
    }
  }

  /** What the loop has done: old entries stay in place, and an entry is known afterwards
      exactly if it was before or it is an NVM entry whose attach was started. */
  lemma {:induction false} SyncFinds(s: Synced, page: seq<Entry>, starts: seq<bool>, n: nat, e: Entry)
    requires KnownOk(s.known, s.index) && n <= |page| == |starts|
    ensures var t := Sync(s, page, starts, n);
            && KnownOk(t.known, t.index) && t.attaching == s.attaching + (|t.known| - |s.known|)
            && |s.known| <= |t.known| && t.known[..|s.known|] == s.known
            && (Knows(t.known, e) <==> Knows(s.known, e) || (e.nvm && Started(page, starts, n, e)))
  {
    if n > 0 {
      SyncFinds(s, page, starts, n - 1, e);
      var m := Sync(s, page, starts, n - 1);
      SyncOneOk(m, page[n - 1], starts[n - 1]);
      var t := Sync(s, page, starts, n);
      assert t.known[..|m.known|][..|s.known|] == t.known[..|s.known|];
      KnowsAfter(m, page[n - 1], starts[n - 1], e);
      StartedAfter(page, starts, n, e);
    }
  }

  predicate Started(page: seq<Entry>, starts: seq<bool>, n: nat, e: Entry)
    requires n <= |page| == |starts|
  {
    exists i :: 0 <= i < n && page[i] == e && starts[i]
  }

  lemma StartedAfter(page: seq<Entry>, starts: seq<bool>, n: nat, e: Entry)
    requires 0 < n <= |page| == |starts|
    ensures Started(page, starts, n, e) <==> Started(page, starts, n - 1, e) || (page[n - 1] == e && starts[n - 1])
  {}

  lemma {:induction false} KnowsAfter(s: Synced, x: Entry, starts: bool, e: Entry)
    ensures Knows(SyncOne(s, x, starts).known, e) <==> Knows(s.known, e) || (x.nvm && starts && x == e)
  {
    var t := SyncOne(s, x, starts);
    if |t.known| > |s.known| {
      assert t.known[|s.known|].entry == x;
      if i :| 0 <= i < |s.known| && s.known[i].entry == e {
        assert t.known[i].entry == e;
      }
    }
  }

  /** A new entry is named like the known ones of its subsystem, or gets the next number if there
      is none; only then the number is used up, even if the attach does not start. */
  lemma {:induction false} SyncOneNames(s: Synced, e: Entry, starts: bool)
    requires KnownOk(s.known, s.index)
    ensures var t := SyncOne(s, e, starts);
            var same := exists i :: 0 <= i < |s.known| && s.known[i].entry.subnqn == e.subnqn;
            && (!e.nvm || Knows(s.known, e) ==> t == s)
            && (e.nvm && !Knows(s.known, e) ==>
                  && t.index == s.index + (if same then 0 else 1)
                  && t.known == s.known + t.known[|s.known|..] && |t.known| == |s.known| + (if starts then 1 else 0)
                  && (starts ==> t.known[|s.known|].entry == e && (!same ==> t.known[|s.known|].name == s.index))
                  && (starts ==> forall i :: 0 <= i < |s.known| && s.known[i].entry.subnqn == e.subnqn ==>
                                   t.known[|s.known|].name == s.known[i].name))
  {}

  lemma {:induction false} KeepIs(known: seq<Known>, page: seq<Entry>, index: nat)
    requires KnownOk(known, index)
    ensures KnownOk(Keep(known, page), index)
    ensures forall k :: k in Keep(known, page) <==> k in known && k.entry in page
  {
    if known != [] {
      KeepIs(known[1..], page, index);
      var rest := Keep(known[1..], page);
      assert forall k :: k in known <==> k == known[0] || k in known[1..];
      forall j | 0 <= j < |rest| ensures rest[j] in known[1..] {
        assert rest[j] in rest;
      }
      KeepFirst(known, rest, index);
    }
  }

  lemma {:induction false} KeepFirst(known: seq<Known>, rest: seq<Known>, index: nat)
    requires KnownOk(known, index) && known != [] && KnownOk(rest, index)
    requires forall j :: 0 <= j < |rest| ==> rest[j] in known[1..]
    ensures KnownOk([known[0]] + rest, index)
  {
    forall j | 0 <= j < |rest|
      ensures rest[j].entry != known[0].entry
      ensures rest[j].entry.subnqn == known[0].entry.subnqn <==> rest[j].name == known[0].name
    {
      var i :| 0 <= i < |known[1..]| && known[1..][i] == rest[j];
      assert known[i + 1] == rest[j];
    }
  }

  lemma KnowsIsIn(known: seq<Known>, e: Entry)
    ensures Knows(known, e) <==> exists k :: k in known && k.entry == e
  {
    if Knows(known, e) {
      var i :| 0 <= i < |known| && known[i].entry == e;
      assert known[i] in known;
    }
  }

  /** After a round the known entries are, without duplicates, exactly the page's NVM entries
      that were known before or whose attach was started. */
  lemma {:induction false} RoundIsExact(known: seq<Known>, index: nat, attaching: nat, page: seq<Entry>, starts: seq<bool>, e: Entry)
    requires KnownOk(known, index) && |page| == |starts|
    ensures var t := Sync(Synced(known, index, attaching), page, starts, |page|);
            && KnownOk(Keep(t.known, page), t.index)
            && (Knows(Keep(t.known, page), e) <==> e in page && e.nvm && (Knows(known, e) || Started(page, starts, |page|, e)))
  {
    var s := Synced(known, index, attaching);
    var t := Sync(s, page, starts, |page|);
    SyncFinds(s, page, starts, |page|, e);
    KeepIs(t.known, page, t.index);
    KnowsIsIn(t.known, e);
    KnowsIsIn(Keep(t.known, page), e);
  }

  // Runs.

  lemma {:induction false} StepKeepsInv(s: State, e: Event)
    requires Inv(s) && Enabled(s, e)
    ensures Inv(Step(s, e))
  {
    match e {
      case Page(page, starts) =>
        var a := Synced(s.known, s.index, s.attaching);
        SyncFinds(a, page, starts, |page|, Entry(true, 0, 0));
        var r := Sync(a, page, starts, |page|);
        KeepIs(r.known, page, r.index);
      case AttachDone => KeepIs(s.known, s.page.value, s.index);
      case _ =>
    }
  }

  predicate Admissible(s: State, es: seq<Event>)
    decreases |es|
  {
    es == [] || (Enabled(s, es[0]) && Admissible(Step(s, es[0]), es[1..]))
  }

  function Run(s: State, es: seq<Event>): State
    requires Admissible(s, es)
    decreases |es|
  {
    if es == [] then s else Run(Step(s, es[0]), es[1..])
  }

  lemma {:induction false} RunKeepsInv(s: State, es: seq<Event>)
    requires Inv(s) && Admissible(s, es)
    ensures Inv(Run(s, es)) && Run(s, es).cleanups >= s.cleanups
    decreases |es|
  {
    if es != [] {
      StepKeepsInv(s, es[0]);
      RunKeepsInv(Step(s, es[0]), es[1..]);
    }
  }

  function Idle(): State {
    State([], 0, false, false, 0, None, 0, 0, 0, 0, 0)
  }

  /** How many attaches an event starts. */
  function Starts(s: State, e: Event): int
    requires Enabled(s, e)
  {
    if e.Page? then |Sync(Synced(s.known, s.index, s.attaching), e.page, e.starts, |e.page|).known| - |s.known| else 0
  }

  function StartedIn(s: State, es: seq<Event>): int
    requires Admissible(s, es)
    decreases |es|
  {
    if es == [] then 0 else Starts(s, es[0]) + StartedIn(Step(s, es[0]), es[1..])
  }

  function Dones(es: seq<Event>): nat {
    if es == [] then 0 else (if es[0].AttachDone? then 1 else 0) + Dones(es[1..])
  }

  lemma {:induction false} StepAttaches(s: State, e: Event)
    requires Inv(s) && Enabled(s, e)
    ensures Step(s, e).attaching == s.attaching + Starts(s, e) - (if e.AttachDone? then 1 else 0)
  {
    if e.Page? {
      SyncFinds(Synced(s.known, s.index, s.attaching), e.page, e.starts, |e.page|, Entry(true, 0, 0));
    }
  }

  /** Over every run the attaches in progress are those started minus those that ended: so the
      last one to end is the one that cleans up. */
  lemma {:induction false} AttachesBalance(s: State, es: seq<Event>)
    requires Inv(s) && Admissible(s, es)
    ensures Run(s, es).attaching == s.attaching + StartedIn(s, es) - Dones(es)
    decreases |es|
  {
    if es != [] {
      StepKeepsInv(s, es[0]);
      StepAttaches(s, es[0]);
      hide Step, Inv, Starts;
      AttachesBalance(Step(s, es[0]), es[1..]);
    }
  }

  /** Over every run of a new service, whenever its controller is connected again: no entry is
      known twice, a page is kept exactly while attaches are in progress, so that no cleanup
      lacks its page, a notice is pending only during a round, and every page that arrived was
      cleaned up once, unless it is still kept or was overwritten. */
  lemma {:induction false} ServiceStaysConsistent(es: seq<Event>)
    requires Admissible(Idle(), es)
    ensures var t := Run(Idle(), es);
            && (forall i, j :: 0 <= i < j < |t.known| ==> t.known[i].entry != t.known[j].entry)
            && (t.page.Some? <==> t.attaching > 0) && (t.pending ==> t.inProgress)
            && t.pages == t.cleanups + t.overwritten + (if t.page.Some? then 1 else 0)
  {
    RunKeepsInv(Idle(), es);
  }

  /** The step that finishes a round: the last attach, or a page that leaves none. */
  predicate Finishes(s: State, e: Event)
    requires Enabled(s, e)
  {
    match e
    case AttachDone => s.attaching == 1
    case Page(page, starts) => Sync(Synced(s.known, s.index, s.attaching), page, starts, |page|).attaching == 0
    case _ => false
  }

  lemma {:induction false} StepCleansUp(s: State, e: Event)
    requires Inv(s) && Enabled(s, e)
    ensures Step(s, e).cleanups == s.cleanups + (if Finishes(s, e) then 1 else 0)
    ensures Finishes(s, e) ==> Step(s, e).attaching == 0 && Step(s, e).page.None?
    ensures Step(s, e).overwritten == s.overwritten + (if e.Page? && s.attaching > 0 then 1 else 0)
  {}

  // Rounds that collide.

  function Ones(b: bool): nat {
    if b then 1 else 0
  }

  /** Rounds under way: outstanding fetches, and the page being worked on. */
  function Overlap(s: State): nat {
    s.fetching + Ones(s.attaching > 0)
  }

  /** At most one round, and `in_progress` tells of it. */
  predicate Apart(s: State) {
    Overlap(s) <= 1 && (Overlap(s) == 1 ==> s.inProgress)
  }

  /** Nothing but a reconnection makes rounds collide, and a reconnection exactly if a fetch is
      outstanding or attaches are in progress. */
  lemma {:induction false} StaysApartIff(s: State, e: Event)
    requires Inv(s) && Apart(s) && Enabled(s, e)
    ensures Apart(Step(s, e)) <==> !(e.Reconnected? && Overlap(s) > 0)
  {
    match e {
      case Page(page, starts) =>
        SyncFinds(Synced(s.known, s.index, s.attaching), page, starts, |page|, Entry(true, 0, 0));
      case _ =>
    }
  }

  /** Every reconnection finds no fetch outstanding and no attach in progress. */
  predicate AllAlone(s: State, es: seq<Event>)
    requires Admissible(s, es)
    decreases |es|
  {
    es == [] || ((es[0].Reconnected? ==> Overlap(s) == 0) && AllAlone(Step(s, es[0]), es[1..]))
  }

  /** After every step of the run rounds are apart. */
  predicate AllApart(s: State, es: seq<Event>)
    requires Admissible(s, es)
    decreases |es|
  {
    Apart(s) && (es == [] || AllApart(Step(s, es[0]), es[1..]))
  }

  lemma {:induction false} AllApartIff(s: State, es: seq<Event>)
    requires Inv(s) && Apart(s) && Admissible(s, es)
    ensures AllApart(s, es) <==> AllAlone(s, es)
    ensures AllAlone(s, es) ==> Apart(Run(s, es)) && Run(s, es).overwritten == s.overwritten
    decreases |es|
  {
    if es != [] {
      StepKeepsInv(s, es[0]);
      StaysApartIff(s, es[0]);
      StepCleansUp(s, es[0]);
      if Apart(Step(s, es[0])) {
        AllApartIff(Step(s, es[0]), es[1..]);
      }
    }
  }

  /** Over every run of a new service: rounds stay apart all along if and only if every
      reconnection finds no fetch outstanding and no attach in progress; then every page but
      one still being worked on has had its one cleanup. */
  lemma {:induction false} CleanupOncePerRound(es: seq<Event>)
    requires Admissible(Idle(), es)
    ensures AllApart(Idle(), es) <==> AllAlone(Idle(), es)
    ensures AllAlone(Idle(), es) ==>
              Run(Idle(), es).cleanups == Run(Idle(), es).pages - Ones(Run(Idle(), es).attaching > 0)
  {
    AllApartIff(Idle(), es);
    RunKeepsInv(Idle(), es);
    hide Run, Admissible, AllApart, AllAlone, KnownOk;
  }

  /** Some run from here on, itself with no such reconnection, overwrites a page. */
  ghost predicate CanOverwrite(s: State) {
    exists es :: Admissible(s, es) && AllAlone(s, es) && Run(s, es).overwritten > s.overwritten
  }

  /** Once rounds have collided a page can be lost without a further reconnection, and only then. */
  lemma {:induction false} OverwriteIff(s: State)
    requires Inv(s)
    ensures CanOverwrite(s) <==> !Apart(s)
  {
    if Apart(s) {
      forall es | Admissible(s, es) && AllAlone(s, es) ensures Run(s, es).overwritten == s.overwritten {
        AllApartIff(s, es);
      }
    } else {
      var es := Overwriting(s);
    }
  }

  lemma {:induction false} RunOne(s: State, e: Event, es: seq<Event>)
    requires Enabled(s, e) && !e.Reconnected? && Admissible(Step(s, e), es) && AllAlone(Step(s, e), es)
    ensures Admissible(s, [e] + es) && AllAlone(s, [e] + es) && Run(s, [e] + es) == Run(Step(s, e), es)
  {
    assert ([e] + es)[1..] == es;
  }

  /** An entry nobody knows. */
  lemma {:induction false} NewEntry(known: seq<Known>) returns (e: Entry)
    ensures e.nvm && !Knows(known, e) && forall i :: 0 <= i < |known| ==> known[i].entry.rest < e.rest
  {
    if known == [] {
      e := Entry(true, 0, 0);
    } else {
      var rest := NewEntry(known[1..]);
      e := Entry(true, 0, rest.rest + known[0].entry.rest + 1);
      assert forall i :: 1 <= i < |known| ==> known[i] == known[1..][i - 1];
    }
  }

  /** The events that make a page be lost. */
  lemma {:induction false} Overwriting(s: State) returns (es: seq<Event>)
    requires Inv(s) && !Apart(s)
    ensures Admissible(s, es) && AllAlone(s, es) && Run(s, es).overwritten > s.overwritten
    decreases 2 - Min2(s.fetching), if s.attaching > 0 then 0 else 1
  {
    if s.attaching > 0 && s.fetching > 0 {
      var e := Page([], []);
      es := [e] + [];
      StepCleansUp(s, e);
      RunOne(s, e, []);
    } else if s.fetching > 1 {
      var x := NewEntry(s.known);
      var e := Page([x], [true]);
      StepKeepsInv(s, e);
      StartsAttach(s, x);
      StepCleansUp(s, e);
      var rest := [Page([], [])];
      StepCleansUp(Step(s, e), rest[0]);
      RunOne(Step(s, e), rest[0], []);
      assert rest == [rest[0]] + [];
      RunOne(s, e, rest);
      es := [e] + rest;
    } else {
      StepKeepsInv(s, Aer);
      StepCleansUp(s, Aer);
      var rest := Overwriting(Step(s, Aer));
      RunOne(s, Aer, rest);
      es := [Aer] + rest;
    }
  }

  function Min2(n: nat): nat {
    if n < 2 then n else 2
  }

  lemma {:induction false} StartsAttach(s: State, x: Entry)
    requires Inv(s) && s.fetching > 1 && x.nvm && !Knows(s.known, x) && s.attaching == 0
    ensures var t := Step(s, Page([x], [true])); t.attaching == 1 && t.fetching == s.fetching - 1
  {
    var a := Synced(s.known, s.index, s.attaching);
    assert Sync(a, [x], [true], 0) == a;
    assert Sync(a, [x], [true], 1) == SyncOne(a, x, true);
  }

  // Notices.

  /** Until the next cleanup nothing is fetched but by reconnections; a notice is remembered. */
  lemma {:induction false} NoticesPend(s: State, es: seq<Event>)
    requires Inv(s) && s.inProgress && Admissible(s, es) && Run(s, es).cleanups == s.cleanups
    ensures var t := Run(s, es);
            && Inv(t) && t.inProgress && t.fetches == s.fetches + Reconnections(es)
            && (t.pending <==> s.pending || Aer in es)
    decreases |es|
  {
    if es != [] {
      StepKeepsInv(s, es[0]);
      StepCleansUp(s, es[0]);
      var next := Step(s, es[0]);
      RunKeepsInv(next, es[1..]);
      NoticesPend(next, es[1..]);
      assert Aer in es <==> es[0] == Aer || Aer in es[1..];
    }
  }

  function Reconnections(es: seq<Event>): nat {
    if es == [] then 0 else Ones(es[0].Reconnected?) + Reconnections(es[1..])
  }

  /** However many notices arrive between two cleanups while `in_progress` is set, they cause
      exactly one fetch, right after the second, and none at all if none arrives; whatever
      else is fetched in between was asked for by a reconnection. */
  lemma {:induction false} NoticesCauseOneFetch(s: State, es: seq<Event>, last: Event)
    requires Inv(s) && s.inProgress && !s.pending && Admissible(s, es) && Run(s, es).cleanups == s.cleanups
    requires Enabled(Run(s, es), last) && Finishes(Run(s, es), last)
    ensures var t := Step(Run(s, es), last);
            && t.fetches == s.fetches + Reconnections(es) + Ones(Aer in es)
            && t.inProgress == (Aer in es) && !t.pending
  {
    NoticesPend(s, es);
  }

  /** While rounds are apart a notice that finds none under way starts the only fetch there is;
      otherwise it can start one beside another. */
  lemma {:induction false} NoticeFetchesAloneIff(s: State)
    requires Inv(s) && !s.inProgress
    ensures Overlap(Step(s, Aer)) == 1 <==> Apart(s)
  {}

  // A round from its page to its cleanup.

  lemma {:induction false} AttachesKeepKnown(s: State, es: seq<Event>)
    requires Inv(s) && Admissible(s, es) && Run(s, es).cleanups == s.cleanups && forall k :: 0 <= k < |es| ==> !es[k].Page?
    ensures Run(s, es).known == s.known && Run(s, es).page == s.page
    decreases |es|
  {
    if es != [] {
      StepKeepsInv(s, es[0]);
      StepCleansUp(s, es[0]);
      RunKeepsInv(Step(s, es[0]), es[1..]);
      AttachesKeepKnown(Step(s, es[0]), es[1..]);
    }
  }

  /** However the attaches of a page end and whatever comes between, if no other page does,
      its cleanup leaves exactly the page's NVM entries that were known when it arrived or
      whose attach it started. */
  lemma {:induction false} RoundEndsExact(s: State, page: seq<Entry>, starts: seq<bool>, es: seq<Event>, last: Event, e: Entry)
    requires Inv(s) && Enabled(s, Page(page, starts)) && !Finishes(s, Page(page, starts))
    requires Admissible(Step(s, Page(page, starts)), es) && forall k :: 0 <= k < |es| ==> !es[k].Page?
    requires Run(Step(s, Page(page, starts)), es).cleanups == s.cleanups
    requires last.AttachDone? && Enabled(Run(Step(s, Page(page, starts)), es), last) && Finishes(Run(Step(s, Page(page, starts)), es), last)
    ensures var t := Step(Run(Step(s, Page(page, starts)), es), last);
            Knows(t.known, e) <==> e in page && e.nvm && (Knows(s.known, e) || Started(page, starts, |page|, e))
  {
    var s1 := Step(s, Page(page, starts));
    StepKeepsInv(s, Page(page, starts));
    StepCleansUp(s, Page(page, starts));
    AttachesKeepKnown(s1, es);
    RoundIsExact(s.known, s.index, s.attaching, page, starts, e);
  }

  // Failed fetches and reconnections.

  /** A round whose fetch has failed: nothing is under way that could end it. */
  predicate Stuck(s: State) {
    s.inProgress && Overlap(s) == 0
  }

  /** A failed fetch ends the service's rounds: until the controller is connected again no
      notice, however many arrive, leads to another fetch. */
  lemma {:induction false} FailedFetchBlocks(s: State, es: seq<Event>)
    requires Inv(s) && Stuck(s) && Admissible(s, es) && NoReconnect(es)
    ensures Stuck(Run(s, es)) && Run(s, es).fetches == s.fetches && Run(s, es).known == s.known
    decreases |es|
  {
    if es != [] {
      StepKeepsInv(s, es[0]);
      FailedFetchBlocks(Step(s, es[0]), es[1..]);
    }
  }

  predicate NoReconnect(es: seq<Event>) {
    forall k :: 0 <= k < |es| ==> !es[k].Reconnected?
  }

  /** Some fetch of the run has failed and the controller was not connected again since. */
  predicate FailedSince(es: seq<Event>) {
    exists k :: 0 <= k < |es| && es[k].PageFailed? && NoReconnect(es[k + 1..])
  }

  lemma {:induction false} StuckIs(s: State, es: seq<Event>)
    requires Inv(s) && Apart(s) && Admissible(s, es) && AllAlone(s, es)
    ensures Stuck(Run(s, es)) <==> (Stuck(s) && NoReconnect(es)) || FailedSince(es)
    decreases |es|
  {
    if es != [] {
      StepKeepsInv(s, es[0]);
      StaysApartIff(s, es[0]);
      StuckIs(Step(s, es[0]), es[1..]);
      StepStuck(s, es[0]);
      FailedSinceTail(es);
      assert NoReconnect(es) <==> !es[0].Reconnected? && NoReconnect(es[1..]) by {
        assert forall k :: 1 <= k < |es| ==> es[k] == es[1..][k - 1];
      }
      hide NoReconnect, FailedSince;
    }
  }

  lemma {:induction false} StepStuck(s: State, e: Event)
    requires Inv(s) && Apart(s) && Enabled(s, e) && (e.Reconnected? ==> Overlap(s) == 0)
    ensures Stuck(Step(s, e)) <==> e.PageFailed? || (Stuck(s) && !e.Reconnected?)
  {
    match e {
      case Page(page, starts) =>
        SyncFinds(Synced(s.known, s.index, s.attaching), page, starts, |page|, Entry(true, 0, 0));
      case _ =>
    }
  }

  lemma {:induction false} FailedSinceTail(es: seq<Event>)
    requires es != []
    ensures FailedSince(es) <==> (es[0].PageFailed? && NoReconnect(es[1..])) || FailedSince(es[1..])
  {
    if k :| 0 <= k < |es| && es[k].PageFailed? && NoReconnect(es[k + 1..]) {
      if k > 0 {
        assert es[1..][k - 1].PageFailed? && es[1..][k..] == es[k + 1..];
      }
    }
    if k :| 0 <= k < |es[1..]| && es[1..][k].PageFailed? && NoReconnect(es[1..][k + 1..]) {
      assert es[k + 1].PageFailed? && es[k + 2..] == es[1..][k + 1..];
    }
  }

  /** The assertion of `get_discovery_log_page` that no round is in progress is at stake when
      the controller is connected again. While no reconnection has made rounds collide before,
      it holds if and only if no attach is in progress, no fetch is outstanding and none has
      failed since the controller was connected last. */
  lemma {:induction false} ReconnectAssertionIff(es: seq<Event>)
    requires Admissible(Idle(), es) && AllAlone(Idle(), es)
    ensures var t := Run(Idle(), es);
            !t.inProgress <==> t.attaching == 0 && t.fetching == 0 && !FailedSince(es)
  {
    AllApartIff(Idle(), es);
    StuckIs(Idle(), es);
    hide Run, FailedSince, AllAlone, AllApart;
  }

  ghost predicate Uncleaned(s: State, es: seq<Event>)
    requires Admissible(s, es)
  {
    Run(s, es).cleanups == s.cleanups
  }

  /** Some fetch of the run was sent and no cleanup has come after it. */
  ghost predicate SentUncleaned(s: State, es: seq<Event>)
    requires Admissible(s, es)
    decreases |es|
  {
    es != [] && (   (Step(s, es[0]).fetches > s.fetches && Uncleaned(Step(s, es[0]), es[1..]))
                 || SentUncleaned(Step(s, es[0]), es[1..]))
  }

  /** Over every run, collisions and all: the assertion holds at a reconnection if and only if
      every fetch that was sent has been followed by a cleanup. */
  lemma {:induction false} AssertionHoldsIff(es: seq<Event>)
    requires Admissible(Idle(), es)
    ensures !Run(Idle(), es).inProgress <==> !SentUncleaned(Idle(), es)
  {
    InProgressIs(Idle(), es);
  }

  lemma {:induction false} InProgressIs(s: State, es: seq<Event>)
    requires Inv(s) && Admissible(s, es)
    ensures Run(s, es).inProgress <==> (s.inProgress && Uncleaned(s, es)) || SentUncleaned(s, es)
    decreases |es|
  {
    if es != [] {
      var next := Step(s, es[0]);
      StepKeepsInv(s, es[0]);
      StepCleansUp(s, es[0]);
      RunKeepsInv(next, es[1..]);
      InProgressIs(next, es[1..]);
      StepInProgress(s, es[0]);
      hide Step, Inv;
    }
  }

  lemma {:induction false} StepInProgress(s: State, e: Event)
    requires Inv(s) && Enabled(s, e)
    ensures var t := Step(s, e); t.inProgress <==> (s.inProgress && t.cleanups == s.cleanups) || t.fetches > s.fetches
  {}

  // Runs of a new service that go wrong.

  lemma {:induction false} RunSome(s: State, e: Event, es: seq<Event>)
    requires Enabled(s, e) && Admissible(Step(s, e), es)
    ensures Admissible(s, [e] + es) && Run(s, [e] + es) == Run(Step(s, e), es)
  {
    assert ([e] + es)[1..] == es;
  }

  /** A notice whose fetch fails breaks the assertion. */
  lemma {:induction false} FailedRunBreaksAssertion()
    ensures var es := [Aer, PageFailed];
            Admissible(Idle(), es) && Enabled(Run(Idle(), es), Reconnected) && Run(Idle(), es).inProgress
  {
    var s1 := Step(Idle(), Aer);
    var s2 := Step(s1, PageFailed);
    assert Admissible(s2, []) && Run(s2, []) == s2;
    RunSome(s1, PageFailed, []);
    RunSome(Idle(), Aer, [PageFailed]);
  }

  /** A page with one new entry. */
  function OneAttach(x: Entry): Event {
    Page([x], [true])
  }

  function AfterOneAttach(x: Entry): State {
    State([Known(x, 0)], 1, true, false, 1, Some([x]), 0, 1, 1, 0, 0)
  }

  lemma {:induction false} OneAttachRun(x: Entry)
    requires x.nvm
    ensures Enabled(Step(Idle(), Aer), OneAttach(x)) && Step(Step(Idle(), Aer), OneAttach(x)) == AfterOneAttach(x)
  {
    var a := Synced([], 0, 0);
    assert Sync(a, [x], [true], 0) == a;
    assert Sync(a, [x], [true], 1) == SyncOne(a, x, true) == Synced([Known(x, 0)], 1, 1);
  }

  /** So does a reconnection during an attach, no fetch having failed. */
  lemma {:induction false} AttachRunBreaksAssertion(x: Entry)
    requires x.nvm
    ensures var es := [Aer, OneAttach(x)];
            && Admissible(Idle(), es) && Enabled(Run(Idle(), es), Reconnected)
            && Run(Idle(), es).inProgress && Run(Idle(), es).fetching == 0 && !FailedSince(es)
  {
    OneAttachRun(x);
    var s1, s2 := Step(Idle(), Aer), AfterOneAttach(x);
    assert Admissible(s2, []) && Run(s2, []) == s2;
    RunSome(s1, OneAttach(x), []);
    RunSome(Idle(), Aer, [OneAttach(x)]);
    assert [Aer] + [OneAttach(x)] == [Aer, OneAttach(x)];
  }

  /** Its page then overwrites the one being attached: two rounds share one cleanup. */
  lemma {:induction false} OverwrittenRun(x: Entry)
    requires x.nvm
    ensures var es := [Aer, OneAttach(x), Reconnected, Page([], []), AttachDone];
            && Admissible(Idle(), es)
            && Run(Idle(), es).pages == 2 && Run(Idle(), es).cleanups == 1 && Run(Idle(), es).overwritten == 1
  {
    OneAttachRun(x);
    var s1, s2 := Step(Idle(), Aer), AfterOneAttach(x);
    var s3 := Step(s2, Reconnected);
    var s4 := Step(s3, Page([], []));
    var s5 := Step(s4, AttachDone);
    assert s5.pages == 2 && s5.cleanups == 1 && s5.overwritten == 1;
    assert Admissible(s5, []) && Run(s5, []) == s5;
    RunSome(s4, AttachDone, []);
    RunSome(s3, Page([], []), [AttachDone]);
    RunSome(s2, Reconnected, [Page([], []), AttachDone]);
    RunSome(s1, OneAttach(x), [Reconnected, Page([], []), AttachDone]);
    RunSome(Idle(), Aer, [OneAttach(x), Reconnected, Page([], []), AttachDone]);
    assert [Aer] + [OneAttach(x), Reconnected, Page([], []), AttachDone] == [Aer, OneAttach(x), Reconnected, Page([], []), AttachDone];
  }

  /** Or the last attach clears `in_progress` while that page is still awaited, and the next
      notice starts a second fetch beside it. */
  lemma {:induction false} SecondFetchRun(x: Entry)
    requires x.nvm
    ensures var es := [Aer, OneAttach(x), Reconnected, AttachDone, Aer];
            Admissible(Idle(), es) && Run(Idle(), es).fetching == 2
  {
    OneAttachRun(x);
    var s1, s2 := Step(Idle(), Aer), AfterOneAttach(x);
    var s3 := Step(s2, Reconnected);
    var s4 := Step(s3, AttachDone);
    var s5 := Step(s4, Aer);
    assert s5.fetching == 2 && Admissible(s5, []) && Run(s5, []) == s5;
    RunSome(s4, Aer, []);
    RunSome(s3, AttachDone, [Aer]);
    RunSome(s2, Reconnected, [AttachDone, Aer]);
    RunSome(s1, OneAttach(x), [Reconnected, AttachDone, Aer]);
    RunSome(Idle(), Aer, [OneAttach(x), Reconnected, AttachDone, Aer]);
    assert [Aer] + [OneAttach(x), Reconnected, AttachDone, Aer] == [Aer, OneAttach(x), Reconnected, AttachDone, Aer];
  }

  // The code itself.

  class DiscoveryCtx {
    var known: seq<Known>
    var index: nat
    var inProgress: bool
    var pending: bool
    var attachInProgress: nat
    var logPage: Option<seq<Entry>>
    ghost var fetching: nat
    ghost var fetches: nat
    ghost var pages: nat
    ghost var cleanups: nat
    ghost var overwritten: nat

    ghost function Abs(): State
      reads this
    {
      State(known, index, inProgress, pending, attachInProgress, logPage, fetching, fetches, pages, cleanups, overwritten)
    }

    /** `get_discovery_log_page`. */
    method GetDiscoveryLogPage()
      modifies this`inProgress, this`fetching, this`fetches
      ensures Abs() == GetLogPage(old(Abs()))
    {
      inProgress := true;
      fetching, fetches := fetching + 1, fetches + 1;
    }

    /** `discovery_aer_cb`. */
    method AerCb()
      modifies this
      ensures Abs() == Step(old(Abs()), Aer)
    {
      if inProgress {
        pending := true;
        return;
      }
      GetDiscoveryLogPage();
    }

    /** `discovery_complete`. */
    method Complete()
      modifies this`inProgress, this`pending, this`fetching, this`fetches
      ensures var s := old(Abs()).(inProgress := false);
              Abs() == if s.pending then GetLogPage(s.(pending := false)) else s
    {
      inProgress := false;
      if pending {
        pending := false;
        GetDiscoveryLogPage();
      }
    }

    /** `discovery_remove_controllers`. */
    method RemoveControllers()
      requires logPage.Some?
      modifies this
      ensures Abs() == CleanUp(old(Abs()))
    {
      var page := logPage.value;
      var kept: seq<Known> := [];
      for i := 0 to |known|
        invariant known == old(known) && logPage == old(logPage)
        invariant kept + Keep(known[i..], page) == Keep(known, page)
      {
        var found := false;
        for j := 0 to |page|
          invariant !found && known[i].entry !in page[..j]
        {
          if page[j] == known[i].entry {
            found := true;
            break;
          }
        }
        assert page[..|page|] == page;
        assert known[i..][1..] == known[i + 1..];
        if found {
          kept := kept + [known[i]];
        }
      }
      known, logPage := kept, None;
      cleanups := cleanups + 1;
      Complete();
    }

    /** The loop body of `discovery_log_page_cb` for an entry that is not a discovery service. */
    method ConsiderEntry(e: Entry, starts: bool)
      requires e.nvm
      modifies this`known, this`index, this`attachInProgress
      ensures Synced(known, index, attachInProgress) == SyncOne(Synced(old(known), old(index), old(attachInProgress)), e, starts)
    {
      for j := 0 to |known|
        invariant forall k :: 0 <= k < j ==> known[k].entry != e
      {
        if known[j].entry == e {
          return;
        }
      }
      var i := BySubnqn(known, e.subnqn);
      var name := index;
      if i < |known| {
        name := known[i].name;
      } else {
        index := index + 1;
      }
      if starts {
        known := known + [Known(e, name)];
        attachInProgress := attachInProgress + 1;
      }
    }

    /** `discovery_log_page_cb` with a page. */
    method LogPageCb(page: seq<Entry>, starts: seq<bool>)
      requires |page| == |starts| && fetching > 0
      modifies this
      ensures Abs() == Step(old(Abs()), Page(page, starts))
    {
      fetching, pages, overwritten := fetching - 1, pages + 1, overwritten + Ones(logPage.Some?);
      logPage := Some(page);
      for i := 0 to |page|
        invariant Synced(known, index, attachInProgress)
               == Sync(Synced(old(known), old(index), old(attachInProgress)), page, starts, i)
        invariant logPage == Some(page) && fetching == old(fetching) - 1
        invariant pages == old(pages) + 1 && overwritten == old(overwritten) + Ones(old(logPage).Some?)
        invariant inProgress == old(inProgress) && pending == old(pending)
        invariant fetches == old(fetches) && cleanups == old(cleanups)
      {
        if !page[i].nvm {
          continue;
        }
        ConsiderEntry(page[i], starts[i]);
      }
      if attachInProgress == 0 {
        RemoveControllers();
      }
    }

    /** `discovery_attach_controller_done`, the service not being stopped. */
    method AttachControllerDone()
      requires attachInProgress > 0 && logPage.Some?
      modifies this
      ensures Abs() == Step(old(Abs()), AttachDone)
    {
      attachInProgress := attachInProgress - 1;
      if attachInProgress == 0 {
        RemoveControllers();
      }
    }
  }
}
