/** ABTS on a Fibre Channel port: fan-out to the hardware queues with a connection of the
    remote port, one retry after syncing the queues, and the BLS response
    (nvmf/fc.c:592-836; nvmf/fc_ls.c:1553-1621). */
module Abts {
  import opened Collections
  import opened Options

  // Which hardware queues are asked.

  datatype Conn = Conn(rpi: nat, hwqp: Option<nat>)

  predicate Concerns(c: Conn, rpi: nat, hwqp: nat) {
    c.rpi == rpi && c.hwqp == Some(hwqp)
  }

  /** The search of `nvmf_fc_handle_abts_frame` over all associations' connections: every
      queue with a connection of the remote port, once. */
  method CollectHwqps(conns: seq<Conn>, rpi: nat) returns (hwqps: seq<nat>)
    ensures Distinct(hwqps)
    ensures forall q :: q in hwqps <==> exists k :: 0 <= k < |conns| && Concerns(conns[k], rpi, q)
    ensures |hwqps| <= |conns|
  {
    hwqps := [];
    for k := 0 to |conns|
      invariant Distinct(hwqps) && |hwqps| <= k
      invariant forall q :: q in hwqps <==> exists j :: 0 <= j < k && Concerns(conns[j], rpi, q)
    {
      var c := conns[k];
      if c.rpi != rpi || c.hwqp.None? {
        continue;
      }
      var skip := false;
      for i := 0 to |hwqps|
        invariant !skip && forall j :: 0 <= j < i ==> hwqps[j] != c.hwqp.value
      {
        if hwqps[i] == c.hwqp.value {
          skip := true;
          break;
        }
      }
      ghost var before := hwqps;
      if !skip {
        hwqps := hwqps + [c.hwqp.value];
      }
      assert forall q :: q in hwqps <==> q in before || q == c.hwqp.value;
      assert Concerns(conns[k], rpi, c.hwqp.value);
    }
  }

  // The context of one ABTS.

  /** `struct spdk_nvmf_fc_abts_ctx`, the fields its callbacks work on. */
  datatype Ctx = Ctx(numHwqps: nat, responded: nat, handled: bool, queueSynced: bool)

  /** What a callback does besides. */
  datatype Action = Wait | SendQueueSync | ResendAbts | SendBls(accept: bool) | Drop

  /** `nvmf_fc_abts_handled_cb`; `syncStarts`: `nvmf_fc_handle_abts_notfound` would succeed. */
  function OnHandled(c: Ctx, found: bool, nportAlive: bool, syncStarts: bool): (Ctx, Action) {
    var c' := c.(handled := c.handled || found, responded := c.responded + 1);
    if c'.responded < c.numHwqps then (c', Wait)
    else if !nportAlive then (c', Drop)
    else if c'.handled then (c', SendBls(true))
    else if !c.queueSynced && syncStarts then (c'.(responded := 0), SendQueueSync)
    else (c', SendBls(false))
  }

  /** `nvmf_fc_queue_synced_cb`. */
  function OnSynced(c: Ctx): (Ctx, Action) {
    var c' := c.(responded := c.responded + 1);
    if c'.responded < c.numHwqps then (c', Wait)
    else (c'.(queueSynced := true, responded := 0, handled := false), ResendAbts)
  }

  class FcAbtsCtx {
    const numHwqps: nat
    var hwqpsResponded: nat
    var handled: bool
    var queueSynced: bool

    constructor (n: nat)
      ensures numHwqps == n && Abs() == Ctx(n, 0, false, false)
    {
      numHwqps, hwqpsResponded, handled, queueSynced := n, 0, false, false;
    }

    function Abs(): Ctx
      reads this
    {
      Ctx(numHwqps, hwqpsResponded, handled, queueSynced)
    }

    method AbtsHandled(found: bool, nportAlive: bool, syncStarts: bool) returns (action: Action)
      modifies this
      ensures (Abs(), action) == OnHandled(old(Abs()), found, nportAlive, syncStarts)
    {
      if found {
        handled := true;
      }
      hwqpsResponded := hwqpsResponded + 1;
      if hwqpsResponded < numHwqps {
        return Wait;
      }
      if !nportAlive {
        return Drop;
      }
      if !handled {
        if !queueSynced && syncStarts {
          hwqpsResponded := 0;
          return SendQueueSync;
        }
        return SendBls(false);
      }
      return SendBls(true);
    }

    method QueueSynced() returns (action: Action)
      modifies this
      ensures (Abs(), action) == OnSynced(old(Abs()))
    {
      hwqpsResponded := hwqpsResponded + 1;
      if hwqpsResponded < numHwqps {
        return Wait;
      }
      queueSynced := true;
      hwqpsResponded := 0;
      handled := false;
      return ResendAbts;
    }
  }

  // All ABTS of a port and the queues' pollers.

  /** What one queue still owes one ABTS: the message was sent to its poller; the exchange was
      found and is being aborted; the answer is on its way; or, while the queues are synced,
      the message was sent, waits in `sync_cbs`, or its answer is on its way. */
  datatype Slot = Sent | Aborting | Answered(found: bool) | SyncSent | SyncWaiting | SyncAnswered | Idle

  /** One ABTS under way. `syncing`: its queues are being synced; `found`: some queue has
      delivered a positive answer in this round. */
  datatype Exchange = Exchange(hwqps: seq<nat>, slots: seq<Slot>, ctx: Ctx, syncing: bool, found: bool)

  datatype Result = Accepted | Rejected | Dropped

  /** Exchanges by unique id; `syncCbs` by hardware queue; `done` and the `bls` responses
      sent are the history. */
  datatype State = State(
    live: map<nat, Exchange>, syncCbs: map<nat, seq<nat>>, nportAlive: bool,
    done: map<nat, Result>, bls: seq<(nat, bool)>)

  datatype Event =
    | Frame(u: nat, hwqps: seq<nat>)            // `nvmf_fc_handle_abts_frame`
    | PollAbts(u: nat, i: nat, found: bool)     // `nvmf_fc_poller_api_abts_received`
    | AbortDone(u: nat, i: nat)                 // `nvmf_fc_poller_abts_done`
    | Deliver(u: nat, i: nat, syncStarts: bool) // `nvmf_fc_abts_handled_cb`
    | PollSync(u: nat, i: nat)                  // `nvmf_fc_poller_api_queue_sync`
    | SyncDone(hwqp: nat, tag: nat)             // `nvmf_fc_poller_api_queue_sync_done`
    | DeliverSync(u: nat, i: nat)               // `nvmf_fc_queue_synced_cb`
    | NportDeleted

  predicate SlotIs(s: State, u: nat, i: nat, x: Slot) {
    u in s.live && i < |s.live[u].slots| && s.live[u].slots[i] == x
  }

  ghost predicate Enabled(s: State, e: Event) {
    match e
    case Frame(u, hwqps) => u !in s.live && u !in s.done && s.nportAlive && Distinct(hwqps) && forall q :: q in hwqps ==> q in s.syncCbs
    case PollAbts(u, i, _) => SlotIs(s, u, i, Sent)
    case AbortDone(u, i) => SlotIs(s, u, i, Aborting)
    case Deliver(u, i, _) => SlotIs(s, u, i, Answered(true)) || SlotIs(s, u, i, Answered(false))
    case PollSync(u, i) => SlotIs(s, u, i, SyncSent)
    case SyncDone(hwqp, _) => hwqp in s.syncCbs
    case DeliverSync(u, i) => SlotIs(s, u, i, SyncAnswered)
    case NportDeleted => true
  }

  function All(n: nat, x: Slot): (r: seq<Slot>)
    ensures |r| == n && forall i :: 0 <= i < n ==> r[i] == x
  {
    seq(n, _ => x)
  }

  function SetSlot(x: Exchange, i: nat, slot: Slot): Exchange
    requires i < |x.slots|
  {
    x.(slots := x.slots[i := slot])
  }

  function Close(s: State, u: nat, r: Result): State {
    s.(live := s.live - {u}, done := s.done[u := r],
       bls := if r == Dropped then s.bls else s.bls + [(u, r == Accepted)])
  }

  function DeliverStep(s: State, u: nat, i: nat, syncStarts: bool): State
    requires u in s.live && i < |s.live[u].slots| && s.live[u].slots[i].Answered?
  {
    var x := s.live[u];
    var found := x.slots[i].found;
    var (c, action) := OnHandled(x.ctx, found, s.nportAlive, syncStarts);
    var x' := SetSlot(x, i, Idle).(ctx := c, found := x.found || found);
    match action
    case SendBls(accept) => Close(s, u, if accept then Accepted else Rejected)
    case Drop => Close(s, u, Dropped)
    case SendQueueSync => s.(live := s.live[u := x'.(slots := All(|x.slots|, SyncSent), syncing := true)])
    case _ => s.(live := s.live[u := x'])
  }

  function DeliverSyncStep(s: State, u: nat, i: nat): State
    requires u in s.live && i < |s.live[u].slots|
  {
    var x := s.live[u];
    var (c, action) := OnSynced(x.ctx);
    var x' := SetSlot(x, i, Idle).(ctx := c);
    if action == ResendAbts then s.(live := s.live[u := x'.(slots := All(|x.slots|, Sent), syncing := false, found := false)])
    else s.(live := s.live[u := x'])
  }

  /** The index of queue `q` among an exchange's queues. */
  function SlotOf(x: Exchange, q: nat): nat {
    IndexOf(x.hwqps, q)
  }

  function SyncDoneStep(s: State, q: nat, tag: nat): State
    requires q in s.syncCbs
  {
    var k := IndexOf(s.syncCbs[q], tag);
    if k == |s.syncCbs[q]| then s
    else
      var s' := s.(syncCbs := s.syncCbs[q := s.syncCbs[q][..k] + s.syncCbs[q][k + 1..]]);
      if tag in s.live && SlotOf(s.live[tag], q) < |s.live[tag].slots|
      then s'.(live := s.live[tag := SetSlot(s.live[tag], SlotOf(s.live[tag], q), SyncAnswered)]) else s'
  }

  function Step(s: State, e: Event): State
    requires Inv(s) && Enabled(s, e)
  {
    match e
    case Frame(u, hwqps) =>
      if hwqps == [] then Close(s, u, Rejected)
      else s.(live := s.live[u := Exchange(hwqps, All(|hwqps|, Sent), Ctx(|hwqps|, 0, false, false), false, false)])
    case PollAbts(u, i, found) =>
      s.(live := s.live[u := SetSlot(s.live[u], i, if found then Aborting else Answered(false))])
    case AbortDone(u, i) => s.(live := s.live[u := SetSlot(s.live[u], i, Answered(true))])
    case Deliver(u, i, syncStarts) => DeliverStep(s, u, i, syncStarts)
    case PollSync(u, i) =>
      var q := s.live[u].hwqps[i];
      s.(live := s.live[u := SetSlot(s.live[u], i, SyncWaiting)], syncCbs := s.syncCbs[q := s.syncCbs[q] + [u]])
    case SyncDone(q, tag) => SyncDoneStep(s, q, tag)
    case DeliverSync(u, i) => DeliverSyncStep(s, u, i)
    case NportDeleted => s.(nportAlive := false)
  }

  // The invariant.

  function Missing(slots: seq<Slot>): nat {
    if slots == [] then 0 else (if slots[0] == Idle then 0 else 1) + Missing(slots[1..])
  }

  predicate KindOk(x: Slot, syncing: bool) {
    x == Idle || (if syncing then x == SyncSent || x == SyncWaiting || x == SyncAnswered
                  else x == Sent || x == Aborting || x.Answered?)
  }

  /** Exactly the missing replies are outstanding, and a positive one is never forgotten
      within its round. */
  predicate ExchangeOk(x: Exchange) {
    && |x.slots| == |x.hwqps| == x.ctx.numHwqps && Distinct(x.hwqps)
    && x.ctx.responded + Missing(x.slots) == x.ctx.numHwqps && Missing(x.slots) > 0
    && (forall i :: 0 <= i < |x.slots| ==> KindOk(x.slots[i], x.syncing))
    && x.ctx.handled == x.found && (x.syncing ==> !x.ctx.queueSynced && !x.found)
  }

  /** `sync_cbs` of queue `q` names exactly the exchanges that wait there. */
  ghost predicate CbsOk(s: State, q: nat)
    requires q in s.syncCbs
  {
    && Distinct(s.syncCbs[q])
    && forall u :: u in s.syncCbs[q] <==> Waits(s.live, u, q)
  }

  predicate WaitsAt(x: Exchange, q: nat) {
    SlotOf(x, q) < |x.slots| && x.slots[SlotOf(x, q)] == SyncWaiting
  }

  predicate Waits(live: map<nat, Exchange>, u: nat, q: nat) {
    u in live && WaitsAt(live[u], q)
  }

  function BlsCount(bls: seq<(nat, bool)>, u: nat): nat {
    if bls == [] then 0 else BlsCount(bls[..|bls| - 1], u) + (if bls[|bls| - 1].0 == u then 1 else 0)
  }

  ghost predicate HistoryOk(s: State) {
    && s.live.Keys !! s.done.Keys
    && (forall u :: BlsCount(s.bls, u) == if u in s.done && s.done[u] != Dropped then 1 else 0)
    && (forall u :: u in s.done && s.done[u] == Dropped ==> !s.nportAlive)
    && (forall u :: u in s.done && s.done[u] != Dropped ==> (u, s.done[u] == Accepted) in s.bls)
  }

  ghost predicate LiveOk(s: State) {
    forall u :: u in s.live ==> ExchangeOk(s.live[u]) && forall q :: q in s.live[u].hwqps ==> q in s.syncCbs
  }

  ghost predicate Inv(s: State) {
    LiveOk(s) && (forall q :: q in s.syncCbs ==> CbsOk(s, q)) && HistoryOk(s)
  }

  // Counting replies.

  lemma {:induction false} MissingSet(slots: seq<Slot>, i: nat, x: Slot)
    requires i < |slots|
    ensures Missing(slots[i := x]) == Missing(slots) - (if slots[i] == Idle then 0 else 1) + (if x == Idle then 0 else 1)
  {
    if i == 0 {
      assert slots[0 := x][1..] == slots[1..];
    } else {
      assert slots[i := x][1..] == slots[1..][i - 1 := x];
      MissingSet(slots[1..], i - 1, x);
    }
  }

  lemma {:induction false} MissingAll(n: nat, x: Slot)
    requires x != Idle
    ensures Missing(All(n, x)) == n
  {
    if n > 0 {
      assert All(n, x)[1..] == All(n - 1, x);
      MissingAll(n - 1, x);
    }
  }

  lemma {:induction false} SomeoneMissing(slots: seq<Slot>) returns (i: nat)
    requires Missing(slots) > 0
    ensures i < |slots| && slots[i] != Idle
  {
    if slots[0] != Idle {
      i := 0;
    } else {
      i := SomeoneMissing(slots[1..]);
      i := i + 1;
    }
  }

  lemma {:induction false} IndexOfAt(s: seq<nat>, i: nat)
    requires i < |s| && Distinct(s)
    ensures IndexOf(s, s[i]) == i
  {
    if i > 0 {
      assert s[0] != s[i] && s[1..][i - 1] == s[i];
      IndexOfAt(s[1..], i - 1);
    }
  }

  // Every event keeps the invariant.

  /** Replacing an exchange without changing where it waits. */
  lemma {:induction false} PutKeepsInv(s: State, s': State, u: nat, x: Exchange)
    requires Inv(s) && s'.live == s.live[u := x] && s'.syncCbs == s.syncCbs && u !in s.done
    requires s'.nportAlive == s.nportAlive && s'.done == s.done && s'.bls == s.bls
    requires ExchangeOk(x) && forall q :: q in x.hwqps ==> q in s.syncCbs
    requires forall q :: q in s.syncCbs ==> (WaitsAt(x, q) <==> Waits(s.live, u, q))
    ensures Inv(s')
  {
    hide ExchangeOk, WaitsAt, BlsCount;
    forall q | q in s'.syncCbs ensures CbsOk(s', q) {
      assert CbsOk(s, q);
    }
  }

  /** One slot moves on, outside of `sync_cbs`. */
  lemma {:induction false} SlotMoves(x: Exchange, i: nat, slot: Slot, q: nat)
    requires ExchangeOk(x) && i < |x.slots| && x.slots[i] != SyncWaiting && slot != SyncWaiting
    requires slot != Idle && x.slots[i] != Idle && KindOk(slot, x.syncing)
    ensures ExchangeOk(SetSlot(x, i, slot)) && (WaitsAt(SetSlot(x, i, slot), q) <==> WaitsAt(x, q))
  {
    MissingSet(x.slots, i, slot);
  }

  lemma {:induction false} SlotMovesKeepsInv(s: State, u: nat, i: nat, slot: Slot)
    requires Inv(s) && u in s.live && i < |s.live[u].slots|
    requires s.live[u].slots[i] != SyncWaiting && s.live[u].slots[i] != Idle
    requires slot != SyncWaiting && slot != Idle && KindOk(slot, s.live[u].syncing)
    ensures Inv(s.(live := s.live[u := SetSlot(s.live[u], i, slot)]))
  {
    var x := s.live[u];
    forall q | q in s.syncCbs ensures WaitsAt(SetSlot(x, i, slot), q) <==> Waits(s.live, u, q) {
      SlotMoves(x, i, slot, q);
    }
    SlotMoves(x, i, slot, 0);
    PutKeepsInv(s, s.(live := s.live[u := SetSlot(x, i, slot)]), u, SetSlot(x, i, slot));
  }

  lemma {:induction false} CloseKeepsHistory(s: State, u: nat, r: Result)
    requires HistoryOk(s) && u !in s.done && (r == Dropped ==> !s.nportAlive)
    ensures HistoryOk(Close(s, u, r))
  {
    var s' := Close(s, u, r);
    if r != Dropped {
      assert s'.bls[..|s'.bls| - 1] == s.bls;
      forall v | v in s'.done && s'.done[v] != Dropped ensures (v, s'.done[v] == Accepted) in s'.bls {
        if v != u {
          assert (v, s.done[v] == Accepted) in s.bls;
        } else {
          assert s'.bls[|s'.bls| - 1] == (v, s'.done[v] == Accepted);
        }
      }
    }
  }

  lemma {:induction false} CloseKeepsInv(s: State, u: nat, r: Result)
    requires Inv(s) && u !in s.done && (r == Dropped ==> !s.nportAlive)
    requires u in s.live ==> forall q :: q in s.syncCbs ==> !WaitsAt(s.live[u], q)
    ensures Inv(Close(s, u, r))
  {
    var s' := Close(s, u, r);
    CloseKeepsHistory(s, u, r);
    hide ExchangeOk, WaitsAt, HistoryOk;
    forall q | q in s'.syncCbs ensures CbsOk(s', q) {
      assert CbsOk(s, q);
    }
  }

  lemma {:induction false} NoWaiting(x: Exchange)
    requires ExchangeOk(x) && !x.syncing
    ensures forall q :: !WaitsAt(x, q)
  {
    forall q ensures !WaitsAt(x, q) {
      if SlotOf(x, q) < |x.slots| {
        assert KindOk(x.slots[SlotOf(x, q)], false);
      }
    }
  }

  /** The exchange after one delivered answer that does not end it. */
  lemma {:induction false} DeliveredOk(x: Exchange, i: nat, nportAlive: bool, syncStarts: bool)
    requires ExchangeOk(x) && !x.syncing && i < |x.slots| && x.slots[i].Answered?
    ensures var (c, action) := OnHandled(x.ctx, x.slots[i].found, nportAlive, syncStarts);
            var x' := SetSlot(x, i, Idle).(ctx := c, found := x.found || x.slots[i].found);
            && (action == Wait ==> ExchangeOk(x'))
            && (action == SendQueueSync ==> ExchangeOk(x'.(slots := All(|x.slots|, SyncSent), syncing := true)))
            && action != ResendAbts && (action == SendBls(true) ==> c.handled && nportAlive)
  {
    MissingSet(x.slots, i, Idle);
    MissingAll(|x.slots|, SyncSent);
  }

  lemma {:induction false} DeliverKeepsInv(s: State, u: nat, i: nat, syncStarts: bool)
    requires Inv(s) && u in s.live && i < |s.live[u].slots| && s.live[u].slots[i].Answered?
    ensures Inv(DeliverStep(s, u, i, syncStarts))
  {
    var x := s.live[u];
    assert KindOk(x.slots[i], x.syncing);
    var (c, action) := OnHandled(x.ctx, x.slots[i].found, s.nportAlive, syncStarts);
    var x' := SetSlot(x, i, Idle).(ctx := c, found := x.found || x.slots[i].found);
    DeliveredOk(x, i, s.nportAlive, syncStarts);
    NoWaiting(x);
    match action {
      case SendBls(accept) => CloseKeepsInv(s, u, if accept then Accepted else Rejected);
      case Drop => CloseKeepsInv(s, u, Dropped);
      case SendQueueSync =>
        var y := x'.(slots := All(|x.slots|, SyncSent), syncing := true);
        PutKeepsInv(s, s.(live := s.live[u := y]), u, y);
      case _ =>
        NoWaiting(x');
        PutKeepsInv(s, s.(live := s.live[u := x']), u, x');
    }
  }

  lemma {:induction false} SyncDeliveredOk(x: Exchange, i: nat)
    requires ExchangeOk(x) && i < |x.slots| && x.slots[i] == SyncAnswered
    ensures x.syncing
    ensures var (c, action) := OnSynced(x.ctx);
            var x' := SetSlot(x, i, Idle).(ctx := c);
            && (action == Wait ==> ExchangeOk(x') && forall q :: WaitsAt(x', q) <==> WaitsAt(x, q))
            && (action != Wait ==> action == ResendAbts && forall q :: !WaitsAt(x, q))
            && (action != Wait ==> ExchangeOk(x'.(slots := All(|x.slots|, Sent), syncing := false, found := false)))
  {
    assert KindOk(x.slots[i], x.syncing);
    MissingSet(x.slots, i, Idle);
    MissingAll(|x.slots|, Sent);
    var (c, action) := OnSynced(x.ctx);
    if action != Wait {
      forall q ensures !WaitsAt(x, q) {
        if WaitsAt(x, q) {
          MissingSet(x.slots[i := Idle], SlotOf(x, q), Idle);
        }
      }
    }
  }

  lemma {:induction false} DeliverSyncKeepsInv(s: State, u: nat, i: nat)
    requires Inv(s) && SlotIs(s, u, i, SyncAnswered)
    ensures Inv(DeliverSyncStep(s, u, i))
  {
    var x := s.live[u];
    SyncDeliveredOk(x, i);
    var (c, action) := OnSynced(x.ctx);
    var x' := SetSlot(x, i, Idle).(ctx := c);
    if action == Wait {
      PutKeepsInv(s, DeliverSyncStep(s, u, i), u, x');
    } else {
      var y := x'.(slots := All(|x.slots|, Sent), syncing := false, found := false);
      NoWaiting(y);
      PutKeepsInv(s, DeliverSyncStep(s, u, i), u, y);
    }
  }

  lemma {:induction false} PollSyncKeepsInv(s: State, u: nat, i: nat)
    requires Inv(s) && SlotIs(s, u, i, SyncSent)
    ensures s.live[u].hwqps[i] in s.syncCbs && Inv(Step(s, PollSync(u, i)))
  {
    var x := s.live[u];
    var q := x.hwqps[i];
    var x' := SetSlot(x, i, SyncWaiting);
    var s' := Step(s, PollSync(u, i));
    assert KindOk(x.slots[i], x.syncing);
    MissingSet(x.slots, i, SyncWaiting);
    IndexOfAt(x.hwqps, i);
    assert CbsOk(s, q) && !Waits(s.live, u, q);
    forall p | p in s'.syncCbs ensures CbsOk(s', p) {
      assert CbsOk(s, p);
      if p == q {
        assert forall v :: v in s'.syncCbs[q] <==> v in s.syncCbs[q] || v == u;
      } else {
        OtherQueueSame(s, s', u, p, i);
      }
    }
  }

  /** Moving the slot of queue `hwqps[i]` leaves every other queue's list right. */
  lemma {:induction false} OtherQueueSame(s: State, s': State, u: nat, p: nat, i: nat)
    requires u in s.live && i < |s.live[u].slots| == |s.live[u].hwqps| && s.live[u].hwqps[i] != p && p in s.syncCbs && CbsOk(s, p)
    requires p in s'.syncCbs && s'.syncCbs[p] == s.syncCbs[p]
    requires exists slot :: s'.live == s.live[u := SetSlot(s.live[u], i, slot)]
    ensures CbsOk(s', p)
  {
    var slot :| s'.live == s.live[u := SetSlot(s.live[u], i, slot)];
    assert SlotOf(s.live[u], p) != i;
    assert WaitsAt(s'.live[u], p) <==> WaitsAt(s.live[u], p);
  }

  /** A completed sync finds, on its queue's list, exactly the exchange it was posted for. */
  lemma {:induction false} SyncDoneKeepsInv(s: State, q: nat, tag: nat)
    requires Inv(s) && q in s.syncCbs
    ensures Inv(SyncDoneStep(s, q, tag))
    ensures if Waits(s.live, tag, q)
            then SyncDoneStep(s, q, tag).live == s.live[tag := SetSlot(s.live[tag], SlotOf(s.live[tag], q), SyncAnswered)]
            else SyncDoneStep(s, q, tag) == s
  {
    assert CbsOk(s, q);
    var k := IndexOf(s.syncCbs[q], tag);
    if k < |s.syncCbs[q]| {
      assert Waits(s.live, tag, q);
      var x := s.live[tag];
      var j := SlotOf(x, q);
      assert ExchangeOk(x) && KindOk(x.slots[j], x.syncing);
      MissingSet(x.slots, j, SyncAnswered);
      var s' := SyncDoneStep(s, q, tag);
      RemoveOne(s.syncCbs[q], k);
      forall p | p in s'.syncCbs ensures CbsOk(s', p) {
        assert CbsOk(s, p);
        if p != q {
          OtherQueueSame(s, s', tag, p, j);
        } else {
          assert s.syncCbs[q][k] == tag && !Waits(s'.live, tag, q);
          assert forall v :: v != tag ==> (Waits(s'.live, v, q) <==> Waits(s.live, v, q));
        }
      }
    }
  }

  lemma {:induction false} RemoveOne(s: seq<nat>, k: nat)
    requires Distinct(s) && k < |s|
    ensures Distinct(s[..k] + s[k + 1..]) && forall v :: v in s[..k] + s[k + 1..] <==> v in s && v != s[k]
  {
    var r := s[..k] + s[k + 1..];
    forall v | v in s && v != s[k] ensures v in r {
      var i :| 0 <= i < |s| && s[i] == v;
      assert r[if i < k then i else i - 1] == v;
    }
  }

  lemma {:induction false} FrameKeepsInv(s: State, u: nat, hwqps: seq<nat>)
    requires Inv(s) && Enabled(s, Frame(u, hwqps))
    ensures Inv(Step(s, Frame(u, hwqps)))
  {
    if hwqps == [] {
      CloseKeepsInv(s, u, Rejected);
    } else {
      var x := Exchange(hwqps, All(|hwqps|, Sent), Ctx(|hwqps|, 0, false, false), false, false);
      MissingAll(|hwqps|, Sent);
      NoWaiting(x);
      PutKeepsInv(s, s.(live := s.live[u := x]), u, x);
    }
  }

  lemma {:induction false} StepKeepsInv(s: State, e: Event)
    requires Inv(s) && Enabled(s, e)
    ensures Inv(Step(s, e))
  {
    match e {
      case Frame(u, hwqps) => FrameKeepsInv(s, u, hwqps);
      case PollAbts(u, i, found) =>
        assert KindOk(s.live[u].slots[i], s.live[u].syncing);
        SlotMovesKeepsInv(s, u, i, if found then Aborting else Answered(false));
      case AbortDone(u, i) =>
        assert KindOk(s.live[u].slots[i], s.live[u].syncing);
        SlotMovesKeepsInv(s, u, i, Answered(true));
      case Deliver(u, i, syncStarts) => DeliverKeepsInv(s, u, i, syncStarts);
      case PollSync(u, i) => PollSyncKeepsInv(s, u, i);
      case SyncDone(q, tag) => SyncDoneKeepsInv(s, q, tag);
      case DeliverSync(u, i) => DeliverSyncKeepsInv(s, u, i);
      case NportDeleted => NportDeletedKeepsInv(s);
    }
  }

  lemma {:induction false} NportDeletedKeepsInv(s: State)
    requires Inv(s)
    ensures Inv(s.(nportAlive := false))
  {
    forall q | q in s.syncCbs ensures CbsOk(s.(nportAlive := false), q) {
      assert CbsOk(s, q);
    }
  }

  // Runs.

  ghost predicate Admissible(s: State, es: seq<Event>)
    decreases |es|
  {
    es == [] || (Inv(s) && Enabled(s, es[0]) && Admissible(Step(s, es[0]), es[1..]))
  }

  ghost function Run(s: State, es: seq<Event>): State
    requires Admissible(s, es)
    decreases |es|
  {
    if es == [] then s else Run(Step(s, es[0]), es[1..])
  }

  ghost predicate Initial(s: State) {
    && s.live == map[] && s.done == map[] && s.bls == [] && s.nportAlive
    && forall q :: q in s.syncCbs ==> s.syncCbs[q] == []
  }

  lemma {:induction false} RunKeepsInv(s: State, es: seq<Event>)
    requires Inv(s) && Admissible(s, es)
    ensures Inv(Run(s, es))
    decreases |es|
  {
    if es != [] {
      StepKeepsInv(s, es[0]);
      hide Step, Inv;
      RunKeepsInv(Step(s, es[0]), es[1..]);
    }
  }

  /** Over every run of a fresh port: each finished ABTS was answered by exactly one BLS
      response, which says what its result is, or by none because its nport was deleted; an
      unfinished or unknown one by none. */
  lemma {:induction false} EveryAbtsAnsweredOnce(s: State, es: seq<Event>, u: nat)
    requires Initial(s) && Admissible(s, es)
    ensures var t := Run(s, es);
            && BlsCount(t.bls, u) == (if u in t.done && t.done[u] != Dropped then 1 else 0)
            && (u in t.done && t.done[u] != Dropped ==> (u, t.done[u] == Accepted) in t.bls)
            && (u in t.done && t.done[u] == Dropped ==> !t.nportAlive)
            && (u in t.live ==> u !in t.done)
  {
    InitialInv(s);
    RunKeepsInv(s, es);
    hide Run, LiveOk, CbsOk;
  }

  lemma {:induction false} InitialInv(s: State)
    requires Initial(s)
    ensures Inv(s)
  {}

  // What the answer says.

  predicate Hot(x: Slot) {
    x == Aborting || x == Answered(true)
  }

  predicate AnyHot(slots: seq<Slot>) {
    exists i :: 0 <= i < |slots| && Hot(slots[i])
  }

  /** Some queue has found the exchange in the present round. */
  predicate Positive(x: Exchange) {
    x.found || AnyHot(x.slots)
  }

  lemma {:induction false} HotSet(slots: seq<Slot>, i: nat, v: Slot)
    requires i < |slots|
    ensures Hot(v) ==> AnyHot(slots[i := v])
    ensures !Hot(v) && !Hot(slots[i]) ==> AnyHot(slots[i := v]) == AnyHot(slots)
    ensures AnyHot(slots[i := v]) ==> Hot(v) || AnyHot(slots)
  {
    assert Hot(v) ==> Hot(slots[i := v][i]);
    if k :| 0 <= k < |slots| && k != i && Hot(slots[k]) {
      assert Hot(slots[i := v][k]);
    }
  }

  lemma {:induction false} NoneMissing(slots: seq<Slot>, i: nat)
    requires Missing(slots) == 0 && i < |slots|
    ensures slots[i] == Idle
  {
    if i > 0 {
      NoneMissing(slots[1..], i - 1);
    }
  }

  /** Nothing is positive while the queues are synced. */
  lemma SyncingIsCold(x: Exchange)
    requires ExchangeOk(x) && x.syncing
    ensures !Positive(x)
  {
    forall i | 0 <= i < |x.slots| ensures !Hot(x.slots[i]) {
      assert KindOk(x.slots[i], true);
    }
  }

  /** The last answer of a round decides: nothing else is outstanding. */
  lemma {:induction false} LastAnswer(x: Exchange, i: nat)
    requires ExchangeOk(x) && i < |x.slots| && x.slots[i].Answered? && x.ctx.responded + 1 >= x.ctx.numHwqps
    ensures Positive(x) == (x.found || x.slots[i].found)
  {
    MissingSet(x.slots, i, Idle);
    forall k | 0 <= k < |x.slots| && k != i ensures !Hot(x.slots[k]) {
      NoneMissing(x.slots[i := Idle], k);
    }
    assert x.slots[i].found ==> Hot(x.slots[i]);
  }

  function RoundResult(nportAlive: bool, positive: bool): Result {
    if !nportAlive then Dropped else if positive then Accepted else Rejected
  }

  /** What one delivered answer does to a round. */
  lemma {:induction false} DeliverDecides(s: State, u: nat, i: nat, syncStarts: bool)
    requires Inv(s) && u in s.live && i < |s.live[u].slots| && s.live[u].slots[i].Answered?
    ensures var s' := DeliverStep(s, u, i, syncStarts);
            && (u in s'.live && !s'.live[u].syncing ==> Positive(s'.live[u]) == Positive(s.live[u]))
            && (u !in s'.live ==> u in s'.done && s'.done[u] == RoundResult(s.nportAlive, Positive(s.live[u])))
    ensures var s' := DeliverStep(s, u, i, syncStarts);
            u in s'.live && s'.live[u].syncing ==> !Positive(s.live[u])
    ensures var s' := DeliverStep(s, u, i, syncStarts);
            u in s'.done && s'.done[u] == Rejected ==> s.live[u].ctx.queueSynced || !syncStarts
  {
    var x := s.live[u];
    assert ExchangeOk(x) && KindOk(x.slots[i], x.syncing);
    HotSet(x.slots, i, Idle);
    assert x.slots[i].found ==> Hot(x.slots[i]);
    if x.ctx.responded + 1 >= x.ctx.numHwqps {
      LastAnswer(x, i);
    }
  }

  /** Every other queue has replied. */
  ghost predicate LastReply(x: Exchange, i: nat) {
    forall k :: 0 <= k < |x.slots| && k != i ==> x.slots[k] == Idle
  }

  lemma {:induction false} LastReplyCounts(x: Exchange, i: nat)
    requires ExchangeOk(x) && i < |x.slots| && x.slots[i] != Idle
    ensures LastReply(x, i) <==> x.ctx.responded + 1 >= x.ctx.numHwqps
  {
    MissingSet(x.slots, i, Idle);
    var rest := x.slots[i := Idle];
    if Missing(rest) > 0 {
      var k := SomeoneMissing(rest);
      assert x.slots[k] != Idle;
    } else {
      forall k | 0 <= k < |x.slots| && k != i ensures x.slots[k] == Idle {
        NoneMissing(rest, k);
      }
    }
  }

  /** The last answer of a round ends the exchange, unless its nport is alive, nothing was
      found, its queues have not been synced and a sync can start: then every queue is asked to
      sync. Any other answer is waited for. */
  lemma {:induction false} AnswerLeadsTo(s: State, u: nat, i: nat, syncStarts: bool)
    requires Inv(s) && Enabled(s, Deliver(u, i, syncStarts))
    ensures var x, t := s.live[u], Step(s, Deliver(u, i, syncStarts));
            var syncs := s.nportAlive && !Positive(x) && !x.ctx.queueSynced && syncStarts;
            && (u in t.live <==> !LastReply(x, i) || syncs)
            && (u in t.live ==> t.live[u].syncing == LastReply(x, i) && t.live[u].hwqps == x.hwqps
                                && t.live[u].ctx.queueSynced == x.ctx.queueSynced
                                && t.live[u].slots == if LastReply(x, i) then All(|x.slots|, SyncSent) else x.slots[i := Idle])
  {
    var x := s.live[u];
    assert ExchangeOk(x) && KindOk(x.slots[i], x.syncing);
    LastReplyCounts(x, i);
    if LastReply(x, i) {
      LastAnswer(x, i);
    }
    hide Inv, LastReply, Positive, ExchangeOk, All;
  }

  lemma {:induction false} AnswerTouchesOne(s: State, u: nat, i: nat, syncStarts: bool)
    requires Inv(s) && Enabled(s, Deliver(u, i, syncStarts))
    ensures var t := Step(s, Deliver(u, i, syncStarts));
            && t.live.Keys + {u} == s.live.Keys && t.syncCbs == s.syncCbs && t.nportAlive == s.nportAlive
            && forall v :: v in s.live && v != u ==> t.live[v] == s.live[v]
  {
    hide Inv, OnHandled, All;
  }

  /** The last queue that is synced starts the second round: every queue is asked again, and
      what was found does not carry over. */
  lemma {:induction false} SyncLeadsTo(s: State, u: nat, i: nat)
    requires Inv(s) && Enabled(s, DeliverSync(u, i))
    ensures var x, t := s.live[u], Step(s, DeliverSync(u, i));
            && u in t.live && t == s.(live := s.live[u := t.live[u]]) && t.live[u].hwqps == x.hwqps
            && t.live[u].syncing == !LastReply(x, i) && t.live[u].ctx.queueSynced == LastReply(x, i) && !Positive(t.live[u])
            && t.live[u].slots == if LastReply(x, i) then All(|x.slots|, Sent) else x.slots[i := Idle]
  {
    var x := s.live[u];
    assert ExchangeOk(x) && KindOk(x.slots[i], x.syncing);
    LastReplyCounts(x, i);
    SyncingIsCold(x);
    HotSet(x.slots, i, Idle);
    hide Inv, LastReply;
  }

  predicate Touches(e: Event, u: nat) {
    match e
    case PollAbts(v, _, _) => v == u
    case AbortDone(v, _) => v == u
    case Deliver(v, _, _) => v == u
    case PollSync(v, _) => v == u
    case SyncDone(_, tag) => tag == u
    case DeliverSync(v, _) => v == u
    case _ => false
  }

  lemma {:induction false} Untouched(s: State, e: Event, u: nat)
    requires Inv(s) && Enabled(s, e) && u in s.live && !Touches(e, u)
    ensures u in Step(s, e).live && Step(s, e).live[u] == s.live[u]
  {
    hide Inv, OnHandled, OnSynced;
  }

  /** A positive round ends in acceptance unless the nport goes; a round that nothing turns
      positive does not. */
  ghost predicate Decided(s: State, s': State, u: nat, turned: bool)
    requires u in s.live
  {
    && (Positive(s.live[u]) ==> (u in s'.live && Positive(s'.live[u])) || (u in s'.done && s'.done[u] != Rejected))
    && (!Positive(s.live[u]) && !turned ==>
          (u in s'.live && !Positive(s'.live[u])) || (u in s'.done && s'.done[u] != Accepted))
  }

  lemma {:induction false} ColdStays(s: State, s': State, u: nat)
    requires Inv(s) && Inv(s') && u in s.live && u in s'.live && s.live[u].syncing && !Positive(s'.live[u])
    ensures Decided(s, s', u, false)
  {
    SyncingIsCold(s.live[u]);
  }

  lemma {:induction false} SlotDecides(s: State, u: nat, i: nat, slot: Slot)
    requires Inv(s) && u in s.live && i < |s.live[u].slots| && (Hot(s.live[u].slots[i]) ==> Hot(slot))
    ensures Decided(s, s.(live := s.live[u := SetSlot(s.live[u], i, slot)]), u, Hot(slot) && !Hot(s.live[u].slots[i]))
  {
    HotSet(s.live[u].slots, i, slot);
    assert Hot(s.live[u].slots[i]) ==> AnyHot(s.live[u].slots);
    hide AnyHot;
  }

  lemma {:induction false} TouchedDecides(s: State, e: Event, u: nat)
    requires Inv(s) && Enabled(s, e) && u in s.live && Touches(e, u)
    ensures Decided(s, Step(s, e), u, e.PollAbts? && e.found)
  {
    var x := s.live[u];
    StepKeepsInv(s, e);
    var s' := Step(s, e);
    match e {
      case PollAbts(_, i, found) => SlotDecides(s, u, i, if found then Aborting else Answered(false));
      case AbortDone(_, i) => SlotDecides(s, u, i, Answered(true));
      case Deliver(_, i, syncStarts) =>
        DeliverDecides(s, u, i, syncStarts);
        if u in s'.live && s'.live[u].syncing {
          SyncingIsCold(s'.live[u]);
        }
      case PollSync(_, _) => SyncDecides(s, e, u);
      case SyncDone(_, _) => SyncDecides(s, e, u);
      case DeliverSync(_, _) => SyncDecides(s, e, u);
    }
  }

  lemma {:induction false} SyncDoneDecides(s: State, q: nat, u: nat)
    requires Inv(s) && u in s.live && q in s.syncCbs
    ensures Decided(s, SyncDoneStep(s, q, u), u, false)
  {
    var x := s.live[u];
    assert ExchangeOk(x);
    SyncDoneKeepsInv(s, q, u);
    var s' := SyncDoneStep(s, q, u);
    hide SyncDoneStep, HistoryOk, CbsOk;
    if Waits(s.live, u, q) {
      assert KindOk(x.slots[SlotOf(x, q)], x.syncing);
      SyncingIsCold(s'.live[u]);
      ColdStays(s, s', u);
    }
  }

  lemma {:induction false} SyncDecides(s: State, e: Event, u: nat)
    requires Inv(s) && Enabled(s, e) && u in s.live && Touches(e, u) && (e.PollSync? || e.SyncDone? || e.DeliverSync?)
    ensures Decided(s, Step(s, e), u, false)
  {
    if e.SyncDone? {
      SyncDoneDecides(s, e.hwqp, u);
    } else {
      var x := s.live[u];
      assert ExchangeOk(x) && KindOk(x.slots[e.i], x.syncing);
      StepKeepsInv(s, e);
      if Step(s, e).live[u].syncing {
        SyncingIsCold(Step(s, e).live[u]);
      }
      ColdStays(s, Step(s, e), u);
    }
  }

  lemma {:induction false} StepDecides(s: State, e: Event, u: nat)
    requires Inv(s) && Enabled(s, e) && u in s.live
    ensures Decided(s, Step(s, e), u, e.PollAbts? && e.u == u && e.found)
  {
    if Touches(e, u) {
      TouchedDecides(s, e, u);
    } else {
      Untouched(s, e, u);
    }
  }

  lemma {:induction false} FinishedStays(s: State, e: Event, u: nat)
    requires Inv(s) && Enabled(s, e) && u in s.done
    ensures u in Step(s, e).done && Step(s, e).done[u] == s.done[u]
  {
    assert u !in s.live;
    hide Inv, OnHandled, OnSynced;
  }

  lemma {:induction false} FinishedForGood(s: State, es: seq<Event>, u: nat)
    requires Inv(s) && Admissible(s, es) && u in s.done
    ensures u in Run(s, es).done && Run(s, es).done[u] == s.done[u]
    decreases |es|
  {
    if es != [] {
      StepKeepsInv(s, es[0]);
      FinishedStays(s, es[0], u);
      hide Step, Inv;
      FinishedForGood(Step(s, es[0]), es[1..], u);
    }
  }

  /** If any queue has found the exchange in the present round, the ABTS is never rejected. */
  lemma {:induction false} FoundIsNotRejected(s: State, es: seq<Event>, u: nat)
    requires Inv(s) && Admissible(s, es) && u in s.live && Positive(s.live[u])
    ensures var t := Run(s, es);
            (u in t.live && Positive(t.live[u])) || (u in t.done && t.done[u] != Rejected)
    decreases |es|
  {
    if es != [] {
      StepKeepsInv(s, es[0]);
      StepDecides(s, es[0], u);
      var s' := Step(s, es[0]);
      hide Step, Inv, Positive;
      if u in s'.live {
        FoundIsNotRejected(s', es[1..], u);
      } else {
        FinishedForGood(s', es[1..], u);
      }
    }
  }

  /** If no queue finds the exchange from here on, the ABTS is never accepted. */
  lemma {:induction false} NotFoundIsNotAccepted(s: State, es: seq<Event>, u: nat)
    requires Inv(s) && Admissible(s, es) && u in s.live && !Positive(s.live[u])
    requires forall k :: 0 <= k < |es| ==> !(es[k].PollAbts? && es[k].u == u && es[k].found)
    ensures var t := Run(s, es);
            (u in t.live && !Positive(t.live[u])) || (u in t.done && t.done[u] != Accepted)
    decreases |es|
  {
    if es != [] {
      StepKeepsInv(s, es[0]);
      StepDecides(s, es[0], u);
      var s' := Step(s, es[0]);
      hide Step, Inv, Positive;
      if u in s'.live {
        NotFoundIsNotAccepted(s', es[1..], u);
      } else {
        FinishedForGood(s', es[1..], u);
      }
    }
  }

  // The answer in terms of what the pollers found.

  predicate Finds(e: Event, u: nat) {
    e.PollAbts? && e.u == u && e.found
  }

  predicate NoSyncAfter(es: seq<Event>, u: nat) {
    forall k :: 0 <= k < |es| ==> !(es[k].DeliverSync? && es[k].u == u)
  }

  /** Some queue's poller has found the exchange, and no queue has been synced for it since: the
      find lies in the deciding round. */
  predicate FoundLast(es: seq<Event>, u: nat) {
    exists k :: 0 <= k < |es| && Finds(es[k], u) && NoSyncAfter(es[k + 1..], u)
  }

  lemma {:induction false} FoundLastTail(es: seq<Event>, u: nat)
    requires es != []
    ensures FoundLast(es, u) <==> (Finds(es[0], u) && NoSyncAfter(es[1..], u)) || FoundLast(es[1..], u)
    ensures NoSyncAfter(es, u) <==> !(es[0].DeliverSync? && es[0].u == u) && NoSyncAfter(es[1..], u)
  {
    assert forall k :: 1 <= k < |es| ==> es[k] == es[1..][k - 1];
    if k :| 0 <= k < |es| && Finds(es[k], u) && NoSyncAfter(es[k + 1..], u) {
      if k > 0 {
        assert Finds(es[1..][k - 1], u) && es[1..][k..] == es[k + 1..];
      }
    }
    if k :| 0 <= k < |es[1..]| && Finds(es[1..][k], u) && NoSyncAfter(es[1..][k + 1..], u) {
      assert Finds(es[k + 1], u) && es[k + 2..] == es[1..][k + 1..];
    }
  }

  /** An exchange is positive right after a queue has found it. */
  lemma {:induction false} FindIsPositive(s: State, u: nat, i: nat)
    requires Inv(s) && Enabled(s, PollAbts(u, i, true))
    ensures u in Step(s, PollAbts(u, i, true)).live && Positive(Step(s, PollAbts(u, i, true)).live[u])
  {
    HotSet(s.live[u].slots, i, Aborting);
  }

  /** What one event does to whether an unfinished ABTS has a find in its round, and to its
      result when it finishes. */
  lemma {:induction false} StepAnswers(s: State, e: Event, u: nat)
    requires Inv(s) && Enabled(s, e) && u in s.live
    ensures var t := Step(s, e);
            var positive := Finds(e, u) || (Positive(s.live[u]) && !(e.DeliverSync? && e.u == u));
            if u in t.live then Positive(t.live[u]) == positive
            else u in t.done && t.done[u] == RoundResult(s.nportAlive, positive)
  {
    StepKeepsInv(s, e);
    if !Touches(e, u) {
      Untouched(s, e, u);
    } else if e.Deliver? {
      DeliverAnswers(s, e, u);
    } else if e.PollAbts? || e.AbortDone? {
      SlotAnswers(s, e, u);
    } else {
      SyncAnswers(s, e, u);
    }
    hide Step, Inv, Positive, RoundResult;
  }

  lemma {:induction false} DeliverAnswers(s: State, e: Event, u: nat)
    requires Inv(s) && Enabled(s, e) && u in s.live && e.Deliver? && e.u == u
    ensures var t := Step(s, e);
            if u in t.live then Positive(t.live[u]) == Positive(s.live[u])
            else u in t.done && t.done[u] == RoundResult(s.nportAlive, Positive(s.live[u]))
  {
    StepKeepsInv(s, e);
    DeliverDecides(s, u, e.i, e.syncStarts);
    var t := Step(s, e);
    if u in t.live && t.live[u].syncing {
      SyncingIsCold(t.live[u]);
    }
    hide DeliverStep, Inv, Positive, RoundResult;
  }

  lemma {:induction false} SlotAnswers(s: State, e: Event, u: nat)
    requires Inv(s) && Enabled(s, e) && u in s.live && Touches(e, u) && (e.PollAbts? || e.AbortDone?)
    ensures u in Step(s, e).live && Positive(Step(s, e).live[u]) == (Finds(e, u) || Positive(s.live[u]))
  {
    var x := s.live[u];
    if e.PollAbts? {
      HotSet(x.slots, e.i, if e.found then Aborting else Answered(false));
    } else {
      HotSet(x.slots, e.i, Answered(true));
      assert Hot(x.slots[e.i]);
    }
    hide Inv;
  }

  lemma {:induction false} SyncAnswers(s: State, e: Event, u: nat)
    requires Inv(s) && Enabled(s, e) && u in s.live && Touches(e, u) && (e.PollSync? || e.SyncDone? || e.DeliverSync?)
    ensures u in Step(s, e).live
    ensures Positive(Step(s, e).live[u]) == (Positive(s.live[u]) && !e.DeliverSync?)
  {
    StepKeepsInv(s, e);
    var t := Step(s, e);
    SyncStaysLive(s, e, u);
    SyncDecides(s, e, u);
    if e.DeliverSync? {
      assert ExchangeOk(s.live[u]) && KindOk(s.live[u].slots[e.i], s.live[u].syncing);
      SyncingIsCold(s.live[u]);
    }
    hide Inv, Step, Positive;
  }

  lemma {:induction false} SyncStaysLive(s: State, e: Event, u: nat)
    requires Inv(s) && Enabled(s, e) && u in s.live && Touches(e, u) && (e.PollSync? || e.SyncDone? || e.DeliverSync?)
    ensures u in Step(s, e).live && u !in s.done && Step(s, e).done == s.done
  {
    hide ExchangeOk, CbsOk, OnSynced;
  }

  /** Over every run from a state in which an ABTS is under way. */
  lemma {:induction false} LiveAnswered(s: State, es: seq<Event>, u: nat)
    requires Inv(s) && Admissible(s, es) && u in s.live
    ensures var t := Run(s, es);
            var positive := FoundLast(es, u) || (Positive(s.live[u]) && NoSyncAfter(es, u));
            if u in t.live then u !in t.done && Positive(t.live[u]) == positive
            else u in t.done && (t.done[u] != Dropped ==> (t.done[u] == Accepted) == positive)
    decreases |es|
  {
    LiveOrDone(s, u);
    if es != [] {
      StepKeepsInv(s, es[0]);
      StepAnswers(s, es[0], u);
      FoundLastTail(es, u);
      var t := Step(s, es[0]);
      hide Step, Inv, Positive, FoundLast, NoSyncAfter;
      if u in t.live {
        LiveAnswered(t, es[1..], u);
      } else {
        FinishedForGood(t, es[1..], u);
        GoneForGood(t, es[1..], u);
        NothingAfter(t, es[1..], u);
      }
    }
  }

  lemma LiveOrDone(s: State, u: nat)
    requires Inv(s)
    ensures !(u in s.live && u in s.done)
  {}

  /** No event acts on an ABTS that is over. */
  lemma {:induction false} NothingAfter(s: State, es: seq<Event>, u: nat)
    requires Inv(s) && Admissible(s, es) && u in s.done
    ensures !FoundLast(es, u) && NoSyncAfter(es, u)
    decreases |es|
  {
    if es != [] {
      StepKeepsInv(s, es[0]);
      FinishedStays(s, es[0], u);
      assert u !in s.live;
      FoundLastTail(es, u);
      hide Step, Inv, FoundLast, NoSyncAfter;
      NothingAfter(Step(s, es[0]), es[1..], u);
    }
  }

  /** Over every run of a fresh port: a finished ABTS whose nport was not deleted was accepted if
      and only if some queue found the exchange in the deciding round, and rejected otherwise;
      one that names no queue is rejected at once. */
  lemma {:induction false} AcceptedIffFound(s: State, es: seq<Event>, u: nat)
    requires Inv(s) && u !in s.live && u !in s.done && Admissible(s, es)
    ensures var t := Run(s, es);
            u in t.done && t.done[u] != Dropped ==> (t.done[u] == Accepted <==> FoundLast(es, u))
    decreases |es|
  {
    if es != [] {
      StepKeepsInv(s, es[0]);
      FoundLastTail(es, u);
      var t := Step(s, es[0]);
      Begins(s, es[0], u);
      LiveOrDone(t, u);
      hide Step, Inv, FoundLast, NoSyncAfter, Positive, Finds;
      if u in t.live {
        LiveAnswered(t, es[1..], u);
      } else if u in t.done {
        FinishedForGood(t, es[1..], u);
        NothingAfter(t, es[1..], u);
      } else {
        AcceptedIffFound(t, es[1..], u);
      }
    }
  }

  /** An ABTS begins with its frame, without a find; naming no queue it ends there. */
  lemma {:induction false} Begins(s: State, e: Event, u: nat)
    requires Inv(s) && Enabled(s, e) && u !in s.live && u !in s.done
    ensures !Finds(e, u)
    ensures var t := Step(s, e);
            && (u in t.live <==> e.Frame? && e.u == u && e.hwqps != [])
            && (u in t.live ==> !Positive(t.live[u]) && t.live[u].hwqps == e.hwqps && t.live[u].slots == All(|e.hwqps|, Sent)
                                && !t.live[u].syncing && !t.live[u].ctx.queueSynced)
            && (u in t.done <==> e.Frame? && e.u == u && e.hwqps == [])
            && (u in t.done ==> t.done[u] == Rejected)
  {
    if e.Frame? && e.u == u {
      hide Inv;
    } else {
      hide Inv, OnHandled, OnSynced;
    }
  }

  // What a rejection and a drop need.

  predicate Synced(e: Event, u: nat) {
    e.DeliverSync? && e.u == u
  }

  /** An answer at which a sync would have failed to start. */
  predicate SyncFails(e: Event, u: nat) {
    e.Deliver? && e.u == u && !e.syncStarts
  }

  lemma {:induction false} StepUnsynced(s: State, e: Event, u: nat)
    requires Inv(s) && Enabled(s, e) && u in s.live && !s.live[u].ctx.queueSynced && !Synced(e, u) && !SyncFails(e, u)
    ensures var t := Step(s, e);
            && (u in t.live ==> !t.live[u].ctx.queueSynced)
            && (u !in t.live ==> u in t.done && t.done[u] != Rejected)
  {
    if !Touches(e, u) {
      Untouched(s, e, u);
    } else if e.Deliver? {
      DeliverDecides(s, u, e.i, e.syncStarts);
      AnswerLeadsTo(s, u, e.i, e.syncStarts);
      LiveOrDone(s, u);
    } else {
      hide Inv, OnHandled, OnSynced;
    }
  }

  /** No exchange is given up before the queues were synced, as long as a sync can start. */
  lemma {:induction false} RejectedOnlyAfterSync(s: State, es: seq<Event>, u: nat)
    requires Inv(s) && Admissible(s, es) && u in s.live && !s.live[u].ctx.queueSynced
    requires forall k :: 0 <= k < |es| ==> !Synced(es[k], u) && !SyncFails(es[k], u)
    ensures var t := Run(s, es);
            (u in t.live && !t.live[u].ctx.queueSynced) || (u in t.done && t.done[u] != Rejected)
    decreases |es|
  {
    if es != [] {
      StepKeepsInv(s, es[0]);
      StepUnsynced(s, es[0], u);
      var t := Step(s, es[0]);
      hide Step, Inv, Synced, SyncFails;
      if u in t.live {
        RejectedOnlyAfterSync(t, es[1..], u);
      } else {
        FinishedForGood(t, es[1..], u);
      }
    }
  }

  lemma {:induction false} StepNport(s: State, e: Event)
    requires Inv(s) && Enabled(s, e)
    ensures Step(s, e).nportAlive == (s.nportAlive && !e.NportDeleted?)
    ensures forall u :: u in Step(s, e).done && u in s.live ==> (Step(s, e).done[u] == Dropped <==> !s.nportAlive)
  {
    hide LiveOk, CbsOk;
    if e.Deliver? {
      DeliverDecides(s, e.u, e.i, e.syncStarts);
      hide HistoryOk, Positive, OnHandled;
    } else {
      hide OnHandled, OnSynced;
    }
  }

  /** Over every run an nport is alive until it is deleted. */
  lemma {:induction false} NportGoneIff(s: State, es: seq<Event>)
    requires Inv(s) && Admissible(s, es)
    ensures Run(s, es).nportAlive <==> s.nportAlive && NportDeleted !in es
    decreases |es|
  {
    if es != [] {
      StepKeepsInv(s, es[0]);
      StepNport(s, es[0]);
      hide Step, Inv;
      NportGoneIff(Step(s, es[0]), es[1..]);
    }
  }

  /** An ABTS is dropped without an answer if and only if its nport was deleted before its last
      reply came, whatever happens afterwards. */
  lemma {:induction false} DroppedIffNportGone(s: State, before: seq<Event>, last: Event, after: seq<Event>, u: nat)
    requires Inv(s) && s.nportAlive && Admissible(s, before) && Admissible(Run(s, before), [last])
    requires u in Run(s, before).live && u in Run(Run(s, before), [last]).done
    requires Admissible(Run(Run(s, before), [last]), after)
    ensures var t := Run(Run(Run(s, before), [last]), after);
            u in t.done && (t.done[u] == Dropped <==> NportDeleted in before)
  {
    var t := Run(s, before);
    RunKeepsInv(s, before);
    NportGoneIff(s, before);
    RunKeepsInv(t, [last]);
    StepNport(t, last);
    var t' := Step(t, last);
    assert Run(t, [last]) == t' by {
      assert [last][1..] == [];
    }
    hide Step, Inv, Admissible;
    FinishedForGood(t', after, u);
  }

  // The measure: queues synced, phase, replies missing.

  function Weight(x: Slot): nat {
    match x
    case Idle => 0
    case Answered(_) => 1
    case SyncAnswered => 1
    case Aborting => 2
    case SyncWaiting => 2
    case _ => 3
  }

  function Weights(slots: seq<Slot>): nat {
    if slots == [] then 0 else Weight(slots[0]) + Weights(slots[1..])
  }

  /** At most two ABTS rounds and one sync round are left, each of at most three steps a queue. */
  function Rank(x: Exchange): nat {
    Weights(x.slots) + (if x.ctx.queueSynced then 0 else if x.syncing then 3 * |x.slots| else 6 * |x.slots|)
  }

  lemma {:induction false} WeightsSet(slots: seq<Slot>, i: nat, x: Slot)
    requires i < |slots|
    ensures Weights(slots[i := x]) == Weights(slots) - Weight(slots[i]) + Weight(x)
  {
    if i == 0 {
      assert slots[0 := x][1..] == slots[1..];
    } else {
      assert slots[i := x][1..] == slots[1..][i - 1 := x];
      WeightsSet(slots[1..], i - 1, x);
    }
  }

  lemma {:induction false} WeightsAll(n: nat, x: Slot)
    ensures Weights(All(n, x)) == n * Weight(x)
  {
    if n > 0 {
      assert All(n, x)[1..] == All(n - 1, x);
      WeightsAll(n - 1, x);
    }
  }

  lemma {:induction false} SlotRank(x: Exchange, i: nat, slot: Slot)
    requires i < |x.slots| && Weight(slot) < Weight(x.slots[i])
    ensures Rank(SetSlot(x, i, slot)) < Rank(x)
  {
    WeightsSet(x.slots, i, slot);
  }

  lemma {:induction false} DeliverRank(s: State, u: nat, i: nat, syncStarts: bool)
    requires Inv(s) && u in s.live && i < |s.live[u].slots| && s.live[u].slots[i].Answered?
    ensures u in DeliverStep(s, u, i, syncStarts).live ==> Rank(DeliverStep(s, u, i, syncStarts).live[u]) < Rank(s.live[u])
  {
    var x := s.live[u];
    assert ExchangeOk(x) && KindOk(x.slots[i], x.syncing);
    WeightsSet(x.slots, i, Idle);
    WeightsAll(|x.slots|, SyncSent);
  }

  lemma {:induction false} DeliverSyncRank(s: State, u: nat, i: nat)
    requires Inv(s) && SlotIs(s, u, i, SyncAnswered)
    ensures u in DeliverSyncStep(s, u, i).live && Rank(DeliverSyncStep(s, u, i).live[u]) < Rank(s.live[u])
  {
    var x := s.live[u];
    assert ExchangeOk(x) && KindOk(x.slots[i], x.syncing);
    WeightsSet(x.slots, i, Idle);
    WeightsAll(|x.slots|, Sent);
  }

  /** `y` is `x`, unless it must have moved on, or is closer to the end. */
  predicate Closer(x: Exchange, y: Exchange, moved: bool) {
    (!moved && x == y) || Rank(y) < Rank(x)
  }

  /** Every event of an ABTS that is not over brings it closer to its end. */
  lemma {:induction false} RankDecreases(s: State, e: Event, u: nat)
    requires Inv(s) && Enabled(s, e) && u in s.live && u in Step(s, e).live
    ensures Closer(s.live[u], Step(s, e).live[u], Touches(e, u) && !e.SyncDone?)
  {
    hide Inv, Rank, DeliverStep, DeliverSyncStep, SyncDoneStep, Close;
    if !Touches(e, u) {
      Untouched(s, e, u);
    } else {
      var x := s.live[u];
      match e {
        case PollAbts(_, i, found) => SlotRank(x, i, if found then Aborting else Answered(false));
        case AbortDone(_, i) => SlotRank(x, i, Answered(true));
        case Deliver(_, i, syncStarts) => DeliverRank(s, u, i, syncStarts);
        case PollSync(_, i) => SlotRank(x, i, SyncWaiting);
        case SyncDone(q, _) =>
          SyncDoneKeepsInv(s, q, u);
          if Waits(s.live, u, q) {
            SlotRank(x, SlotOf(x, q), SyncAnswered);
          }
        case DeliverSync(_, i) => DeliverSyncRank(s, u, i);
      }
    }
  }

  /** How many events of a run act on an ABTS before it is over. */
  ghost function Acting(s: State, es: seq<Event>, u: nat): nat
    requires Admissible(s, es)
    decreases |es|
  {
    if es == [] || u !in s.live then 0
    else (if Touches(es[0], u) && !es[0].SyncDone? then 1 else 0) + Acting(Step(s, es[0]), es[1..], u)
  }

  /** No ABTS takes more than nine events per queue asked (completed syncs apart, which
      belong to the hardware). */
  lemma {:induction false} AbtsEnds(s: State, es: seq<Event>, u: nat)
    requires Inv(s) && Admissible(s, es) && u in s.live
    ensures Acting(s, es, u) + (if u in Run(s, es).live then Rank(Run(s, es).live[u]) else 0) <= Rank(s.live[u])
    decreases |es|
  {
    if es != [] {
      StepKeepsInv(s, es[0]);
      var s' := Step(s, es[0]);
      if u in s'.live {
        RankDecreases(s, es[0], u);
        hide Step, Inv, Rank;
        AbtsEnds(s', es[1..], u);
      } else {
        LiveHasRank(s, u);
        StepEnds(s, es[0], u);
        GoneForGood(s', es[1..], u);
      }
    }
  }

  lemma {:induction false} StepEnds(s: State, e: Event, u: nat)
    requires Inv(s) && Enabled(s, e) && u in s.live && u !in Step(s, e).live
    ensures u in Step(s, e).done
  {
    hide Inv, OnHandled, OnSynced;
  }

  lemma {:induction false} GoneForGood(s: State, es: seq<Event>, u: nat)
    requires Inv(s) && Admissible(s, es) && u in s.done
    ensures Acting(s, es, u) == 0 && u !in Run(s, es).live
  {
    FinishedForGood(s, es, u);
    RunKeepsInv(s, es);
  }

  lemma {:induction false} LiveHasRank(s: State, u: nat)
    requires Inv(s) && u in s.live
    ensures Rank(s.live[u]) > 0
  {
    var x := s.live[u];
    var i := SomeoneMissing(x.slots);
    WeightsSet(x.slots, i, Idle);
  }

  lemma {:induction false} RankBound(x: Exchange)
    requires ExchangeOk(x)
    ensures Rank(x) <= 9 * |x.slots|
  {
    WeightsBound(x.slots);
  }

  lemma {:induction false} WeightsBound(slots: seq<Slot>)
    ensures Weights(slots) <= 3 * |slots|
  {
    if slots != [] {
      WeightsBound(slots[1..]);
    }
  }

  /** An ABTS that is not over always has a next event; none is ever forgotten. */
  lemma {:induction false} NextEvent(s: State, u: nat) returns (e: Event)
    requires Inv(s) && u in s.live
    ensures Enabled(s, e) && Touches(e, u)
    ensures u in Step(s, e).live ==> Rank(Step(s, e).live[u]) < Rank(s.live[u])
  {
    var x := s.live[u];
    var i := SomeoneMissing(x.slots);
    match x.slots[i] {
      case Sent => e := PollAbts(u, i, false);
      case Aborting => e := AbortDone(u, i);
      case Answered(_) => e := Deliver(u, i, true);
      case SyncSent => e := PollSync(u, i);
      case SyncWaiting =>
        e := SyncDone(x.hwqps[i], u);
        IndexOfAt(x.hwqps, i);
        SyncDoneKeepsInv(s, x.hwqps[i], u);
      case SyncAnswered => e := DeliverSync(u, i);
    }
    if u in Step(s, e).live {
      RankDecreases(s, e, u);
    }
  }
}
