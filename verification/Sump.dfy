/** The multipath layer over NVMe bdevs: choosing a path by hash, the wrapped completion
    callback, retrying on another path, and the latency window
    (sump_data.c:19-69; sump_ctrl.c:20-79, 175-194, 292-311, 342-392). */
module Sump {
  import opened Collections
  import opened Options

  datatype Path = Path(id: nat, available: bool)

  /** Paths are numbered in list order and `max_id` is their number. */
  predicate Numbered(paths: seq<Path>, maxId: nat) {
    maxId == |paths| && forall i :: 0 <= i < |paths| ==> paths[i].id == i
  }

  // Choosing a path.

  /** The first available path from `from` on; with `id` given, the one of that number. */
  function FirstAvailable(paths: seq<Path>, from: nat, id: Option<nat>): (r: Option<nat>)
    requires from <= |paths|
    ensures match r
            case None => forall i :: from <= i < |paths| ==> !(paths[i].available && (id.None? || id == Some(paths[i].id)))
            case Some(k) =>
              && from <= k < |paths| && paths[k].available && (id.None? || id == Some(paths[k].id))
              && forall i :: from <= i < k ==> !(paths[i].available && (id.None? || id == Some(paths[i].id)))
    decreases |paths| - from
  {
    if from == |paths| then None
    else if paths[from].available && (id.None? || id == Some(paths[from].id)) then Some(from)
    else FirstAvailable(paths, from + 1, id)
  }

  /** `ump_find_iopath_hash`, past its division; the quotient is cut to an `unsigned int`. */
  function ChosenId(maxId: nat, offset: nat, numBlocks: nat): nat
    requires numBlocks > 0 && maxId > 0
  {
    offset / numBlocks % maxId % 0x1_0000_0000
  }

  function FindHash(paths: seq<Path>, maxId: nat, offset: nat, numBlocks: nat): Option<nat>
    requires numBlocks > 0 && maxId > 0
  {
    var byId := FirstAvailable(paths, 0, Some(ChosenId(maxId, offset, numBlocks)));
    if byId.Some? then byId else FirstAvailable(paths, 0, None)
  }

  predicate SomeAvailable(paths: seq<Path>) {
    exists i :: 0 <= i < |paths| && paths[i].available
  }

  /** The pick is the hashed path if that is available, else the first available one; it
      fails only if no path is available. */
  lemma {:induction false} PickIs(paths: seq<Path>, maxId: nat, offset: nat, numBlocks: nat)
    requires Numbered(paths, maxId) && 0 < maxId <= 0x1_0000_0000 && numBlocks > 0
    ensures var h := offset / numBlocks % maxId;
            && (FindHash(paths, maxId, offset, numBlocks).Some? <==> SomeAvailable(paths))
            && match FindHash(paths, maxId, offset, numBlocks)
               case None => true
               case Some(k) =>
                 && paths[k].available && (paths[h].available ==> k == h)
                 && (!paths[h].available ==> forall i :: 0 <= i < k ==> !paths[i].available)
  {
    assert ChosenId(maxId, offset, numBlocks) == offset / numBlocks % maxId;
  }

  // One I/O.

  /** A completion callback with its argument: the caller's own, or the layer's wrapper
      around one, with the path in use. */
  datatype Callback = User(fn: nat, arg: nat) | Wrapped(original: Callback, path: nat)

  /** `tried` lists the paths the I/O was submitted to. */
  datatype Io = Io(cb: Callback, offset: nat, numBlocks: nat, tried: seq<nat>)

  /** `called` lists the callers' callbacks that were called, with the I/O; `crashed`: the
      process has divided by zero or used a null path. */
  datatype State = State(paths: seq<Path>, maxId: nat, ios: map<nat, Io>, called: seq<(nat, Callback)>, crashed: bool)

  datatype Event =
    | Request(io: nat, cb: Callback, offset: nat, numBlocks: nat) // a caller's `submit_request`
    | Done(io: nat, success: bool)                                // `ump_bdev_io_completion_cb`

  function MarkDown(paths: seq<Path>, k: nat): seq<Path>
    requires k < |paths|
  {
    paths[k := paths[k].(available := false)]
  }

  /** What a pick finds; it divides by `num_blocks`, whatever the type of the I/O, and by
      `max_id`, which is zero without any path. */
  function Pick(s: State, x: Io): Option<nat> {
    if x.numBlocks == 0 || s.maxId == 0 then None else FindHash(s.paths, s.maxId, x.offset, x.numBlocks)
  }

  /** `ump_bdev_submit_request`: one more wrapper, then the pick. The code divides by zero, or
      reads the number of a null path before it tests for one. */
  function Submit(s: State, io: nat, x: Io): State {
    match Pick(s, x)
    case None => s.(crashed := true)
    case Some(k) => s.(ios := s.ios[io := x.(cb := Wrapped(x.cb, k), tried := x.tried + [k])])
  }

  ghost predicate Enabled(s: State, e: Event) {
    !s.crashed &&
    match e
    case Request(io, cb, _, _) => io !in s.ios && (forall k :: 0 <= k < |s.called| ==> s.called[k].0 != io) && cb.User?
    case Done(io, _) => io in s.ios && s.ios[io].cb.Wrapped? && s.ios[io].cb.path < |s.paths|
  }

  function Step(s: State, e: Event): State
    requires Enabled(s, e)
  {
    match e
    case Request(io, cb, offset, numBlocks) => Submit(s, io, Io(cb, offset, numBlocks, []))
    case Done(io, success) =>
      var x := s.ios[io];
      if success then s.(ios := s.ios - {io}, called := s.called + [(io, x.cb.original)])
      else Submit(s.(paths := MarkDown(s.paths, x.cb.path)), io, x.(cb := x.cb.original))
  }

  /** A submission survives if and only if the I/O has blocks and some path is available. */
  lemma {:induction false} SubmitSurvivesIff(s: State, io: nat, x: Io)
    requires Numbered(s.paths, s.maxId) && s.maxId <= 0x1_0000_0000 && !s.crashed
    ensures !Submit(s, io, x).crashed <==> x.numBlocks > 0 && SomeAvailable(s.paths)
  {
    if x.numBlocks > 0 && s.maxId > 0 {
      PickIs(s.paths, s.maxId, x.offset, x.numBlocks);
    }
  }

  /** Wrapped exactly once, around the caller's callback; on the path tried last; every path
      tried before is unavailable and was tried once. */
  predicate IoOk(s: State, io: nat)
    requires io in s.ios
  {
    var x := s.ios[io];
    && x.numBlocks > 0 && x.tried != []
    && x.cb.Wrapped? && x.cb.original.User? && x.cb.path == x.tried[|x.tried| - 1]
    && Distinct(x.tried) && (forall i :: 0 <= i < |x.tried| ==> x.tried[i] < |s.paths|)
    && forall i :: 0 <= i < |x.tried| - 1 ==> !s.paths[x.tried[i]].available
  }

  ghost predicate Inv(s: State) {
    && Numbered(s.paths, s.maxId) && s.maxId <= 0x1_0000_0000
    && (forall io :: io in s.ios ==> IoOk(s, io))
    && (forall k :: 0 <= k < |s.called| ==> s.called[k].0 !in s.ios && s.called[k].1.User?)
    && forall j, k :: 0 <= j < k < |s.called| ==> s.called[j].0 != s.called[k].0
  }

  /** An I/O submitted on an available path, all paths tried before being unavailable. */
  lemma {:induction false} SubmitOk(s: State, io: nat, x: Io)
    requires Numbered(s.paths, s.maxId) && s.maxId <= 0x1_0000_0000 && x.cb.User? && Distinct(x.tried) && !s.crashed
    requires forall i :: 0 <= i < |x.tried| ==> x.tried[i] < |s.paths| && !s.paths[x.tried[i]].available
    ensures !Submit(s, io, x).crashed ==> IoOk(Submit(s, io, x), io)
  {
    if Pick(s, x).Some? {
      PickIs(s.paths, s.maxId, x.offset, x.numBlocks);
    }
  }

  lemma {:induction false} RequestKeepsInv(s: State, e: Event)
    requires Inv(s) && Enabled(s, e) && e.Request?
    ensures Inv(Step(s, e))
  {
    var s' := Step(s, e);
    SubmitOk(s, e.io, Io(e.cb, e.offset, e.numBlocks, []));
    hide FirstAvailable, FindHash, SomeAvailable;
    forall j | j in s'.ios ensures IoOk(s', j) {
      assert j in s.ios ==> IoOk(s, j);
    }
  }

  lemma {:induction false} DoneKeepsInv(s: State, e: Event)
    requires Inv(s) && Enabled(s, e) && e.Done?
    ensures Inv(Step(s, e))
  {
    var s' := Step(s, e);
    assert IoOk(s, e.io);
    if !e.success {
      var x := s.ios[e.io];
      SubmitOk(s.(paths := MarkDown(s.paths, x.cb.path)), e.io, x.(cb := x.cb.original));
    }
    hide FirstAvailable, FindHash, SomeAvailable;
    forall j | j in s'.ios ensures IoOk(s', j) {
      assert IoOk(s, j);
    }
  }

  lemma {:induction false} StepKeepsInv(s: State, e: Event)
    requires Inv(s) && Enabled(s, e)
    ensures Inv(Step(s, e))
  {
    hide Inv, Step;
    if e.Request? {
      RequestKeepsInv(s, e);
    } else {
      DoneKeepsInv(s, e);
    }
  }

  // Runs.

  ghost predicate Admissible(s: State, es: seq<Event>)
    decreases |es|
  {
    es == [] || (Inv(s) && Enabled(s, es[0]) && Admissible(Step(s, es[0]), es[1..]))
  }

  ghost function Run(s: State, es: seq<Event>): State
    requires Admissible(s, es)
    decreases |es|
  {
    if es == [] then s else Run(Step(s, es[0]), es[1..])
  }

  lemma {:induction false} RunKeepsInv(s: State, es: seq<Event>)
    requires Inv(s) && Admissible(s, es)
    ensures Inv(Run(s, es))
    decreases |es|
  {
    if es != [] {
      StepKeepsInv(s, es[0]);
      hide Step, Inv;
      RunKeepsInv(Step(s, es[0]), es[1..]);
    }
  }

  /** Over every run of a fresh channel, up to a crash if there is one: callbacks are wrapped
      exactly one level deep, no I/O tries a path twice nor one that has failed it, and each
      caller's callback is called at most once. */
  lemma {:induction false} EachPathTriedOnce(s: State, es: seq<Event>)
    requires Numbered(s.paths, s.maxId) && s.maxId <= 0x1_0000_0000 && s.ios == map[] && s.called == [] && Admissible(s, es)
    ensures var t := Run(s, es);
            && (forall io :: io in t.ios ==> t.ios[io].cb.Wrapped? && t.ios[io].cb.original.User? && Distinct(t.ios[io].tried))
            && (forall j, k :: 0 <= j < k < |t.called| ==> t.called[j].0 != t.called[k].0)
            && (forall k :: 0 <= k < |t.called| ==> t.called[k].0 !in t.ios)
  {
    RunKeepsInv(s, es);
    var t := Run(s, es);
    hide Run, Step;
    forall io | io in t.ios ensures t.ios[io].cb.Wrapped? && t.ios[io].cb.original.User? && Distinct(t.ios[io].tried) {
      assert IoOk(t, io);
    }
  }

  /** While it is under way an I/O has tried at most all paths; so it is resubmitted less
      often than there are paths. */
  lemma {:induction false} TriesBounded(s: State, es: seq<Event>, io: nat)
    requires Inv(s) && Admissible(s, es) && io in Run(s, es).ios
    ensures 1 <= |Run(s, es).ios[io].tried| <= |Run(s, es).paths|
  {
    RunKeepsInv(s, es);
    assert IoOk(Run(s, es), io);
    var tried, n := Run(s, es).ios[io].tried, |Run(s, es).paths|;
    forall k | k in tried ensures k in Iota(0, n) {
      assert Iota(0, n)[k] == k;
    }
    Pigeonhole(tried, Iota(0, n));
  }

  /** The caller's callback and argument an I/O carries. */
  predicate Carries(s: State, io: nat, cb: Callback) {
    io in s.ios && s.ios[io].cb.Wrapped? && s.ios[io].cb.original == cb
  }

  /** From its request on, an I/O either still carries the caller's callback, or that very
      callback was called for it, by its first success. */
  lemma {:induction false} OriginalCallbackUsed(s: State, es: seq<Event>, io: nat, cb: Callback)
    requires Inv(s) && Admissible(s, es) && Carries(s, io, cb)
    ensures var t := Run(s, es);
            if exists k :: 0 <= k < |es| && es[k] == Done(io, true) then (io, cb) in t.called && io !in t.ios
            else Carries(t, io, cb)
    decreases |es|
  {
    if es != [] {
      var next := Step(s, es[0]);
      StepKeepsInv(s, es[0]);
      assert IoOk(s, io);
      DoneLater(es, io);
      if es[0] == Done(io, true) {
        assert next.called[|s.called|] == (io, cb);
        CalledStays(next, es[1..], io, cb);
      } else {
        assert Carries(next, io, cb);
        hide Step, Inv;
        OriginalCallbackUsed(next, es[1..], io, cb);
      }
    }
  }

  lemma {:induction false} DoneLater(es: seq<Event>, io: nat)
    requires es != []
    ensures (exists k :: 0 <= k < |es| && es[k] == Done(io, true)) <==>
            es[0] == Done(io, true) || exists k :: 0 <= k < |es[1..]| && es[1..][k] == Done(io, true)
  {
    if k :| 0 <= k < |es| && es[k] == Done(io, true) {
      assert k > 0 ==> es[1..][k - 1] == Done(io, true);
    }
    if k :| 0 <= k < |es[1..]| && es[1..][k] == Done(io, true) {
      assert es[k + 1] == Done(io, true);
    }
  }

  /** A callback that was called stays called, and is never called again. */
  lemma {:induction false} CalledStays(s: State, es: seq<Event>, io: nat, cb: Callback)
    requires Inv(s) && Admissible(s, es) && (io, cb) in s.called
    ensures (io, cb) in Run(s, es).called && io !in Run(s, es).ios
    decreases |es|
  {
    if es != [] {
      StepKeepsInv(s, es[0]);
      var k :| 0 <= k < |s.called| && s.called[k] == (io, cb);
      assert Step(s, es[0]).called[k] == (io, cb);
      hide Step, Inv;
      CalledStays(Step(s, es[0]), es[1..], io, cb);
    } else {
      var k :| 0 <= k < |s.called| && s.called[k] == (io, cb);
    }
  }

  /** A failed I/O finds another path exactly if one is left besides the failed one; without
      one the pick returns null and the code fails. */
  lemma {:induction false} RetryPossibleIff(s: State, io: nat)
    requires Inv(s) && Enabled(s, Done(io, false))
    ensures !Step(s, Done(io, false)).crashed <==>
            exists i :: 0 <= i < |s.paths| && i != s.ios[io].cb.path && s.paths[i].available
  {
    assert IoOk(s, io);
    var p := s.ios[io].cb.path;
    var paths := MarkDown(s.paths, p);
    SubmitSurvivesIff(s.(paths := paths), io, s.ios[io].(cb := s.ios[io].cb.original));
    assert forall i :: 0 <= i < |paths| ==> paths[i].available == (i != p && s.paths[i].available);
  }

  /** The path a submission must go to among `paths`: that of the hash of the I/O's own offset
      if it is available, else the first available one. */
  ghost predicate GoesTo(paths: seq<Path>, offset: nat, numBlocks: nat, k: nat)
    requires paths != [] && numBlocks > 0
  {
    var h := offset / numBlocks % |paths|;
    && k < |paths| && paths[k].available
    && (paths[h].available ==> k == h) && (!paths[h].available ==> forall i :: 0 <= i < k ==> !paths[i].available)
  }

  /** A request that does not crash leaves the I/O as the caller made it, on the hashed path or
      the first available one; no path and no other I/O is touched. */
  lemma {:induction false} RequestGoesTo(s: State, io: nat, cb: Callback, offset: nat, numBlocks: nat)
    requires Inv(s) && Enabled(s, Request(io, cb, offset, numBlocks)) && numBlocks > 0 && SomeAvailable(s.paths)
    ensures var t := Step(s, Request(io, cb, offset, numBlocks));
            && !t.crashed && t.paths == s.paths && t.maxId == s.maxId && t.called == s.called
            && io in t.ios && t.ios == s.ios[io := t.ios[io]] && t.ios[io].cb.Wrapped?
            && GoesTo(s.paths, offset, numBlocks, t.ios[io].cb.path)
            && t.ios[io] == Io(Wrapped(cb, t.ios[io].cb.path), offset, numBlocks, [t.ios[io].cb.path])
  {
    PickIs(s.paths, s.maxId, offset, numBlocks);
  }

  /** So does a retry, of which the failed path alone is marked down first: it goes by the hash
      of the same I/O again, not to a neighbour of the path that failed. */
  lemma {:induction false} RetryGoesTo(s: State, io: nat)
    requires Inv(s) && Enabled(s, Done(io, false))
    requires exists i :: 0 <= i < |s.paths| && i != s.ios[io].cb.path && s.paths[i].available
    ensures var x, t := s.ios[io], Step(s, Done(io, false));
            && !t.crashed && t.maxId == s.maxId && t.called == s.called && |t.paths| == |s.paths|
            && (forall i :: 0 <= i < |s.paths| ==>
                  t.paths[i] == Path(s.paths[i].id, s.paths[i].available && i != x.cb.path))
            && io in t.ios && t.ios == s.ios[io := t.ios[io]] && t.ios[io].cb.Wrapped?
            && x.numBlocks > 0 && GoesTo(t.paths, x.offset, x.numBlocks, t.ios[io].cb.path)
            && t.ios[io] == Io(Wrapped(x.cb.original, t.ios[io].cb.path), x.offset, x.numBlocks, x.tried + [t.ios[io].cb.path])
  {
    assert IoOk(s, io);
    RetryPossibleIff(s, io);
    var x := s.ios[io];
    var paths := MarkDown(s.paths, x.cb.path);
    PickIs(paths, s.maxId, x.offset, x.numBlocks);
  }

  // The latency window of a path.

  const WINDOW := 20

  function Sum(times: seq<nat>): nat {
    if times == [] then 0 else times[0] + Sum(times[1..])
  }

  lemma {:induction false} SumAppend(times: seq<nat>, time: nat)
    ensures Sum(times + [time]) == Sum(times) + time
  {
    if times == [] {
      assert times + [time] == [time];
    } else {
      assert (times + [time])[1..] == times[1..] + [time];
      SumAppend(times[1..], time);
    }
  }

  /** The most recent samples. */
  function Latest(all: seq<nat>): (r: seq<nat>)
    ensures |r| == if |all| < WINDOW then |all| else WINDOW
  {
    if |all| < WINDOW then all else all[|all| - WINDOW..]
  }

  /** `struct time_queue`; `samples` is every sample so far. */
  class TimeQueue {
    var timeList: seq<nat>
    var len: nat
    var ioTimeAll: int
    var ioTimeAvg: int
    ghost var samples: seq<nat>

    constructor ()
      ensures Valid() && samples == []
    {
      timeList, len, ioTimeAll, ioTimeAvg, samples := [], 0, 0, 0, [];
    }

    /** The list holds the last twenty samples, the sum and the rounded-down average are theirs. */
    ghost predicate Valid()
      reads this
    {
      && timeList == Latest(samples) && len == |timeList|
      && ioTimeAll == Sum(timeList) && (len > 0 ==> ioTimeAvg == ioTimeAll / len)
    }

    /** `update_io_time_detail`. */
    method UpdateIoTimeDetail(time: nat)
      requires Valid()
      modifies this
      ensures Valid() && samples == old(samples) + [time]
    {
      SumAppend(timeList, time);
      timeList := timeList + [time];
      ioTimeAll := ioTimeAll + time;
      samples := samples + [time];
      if len < WINDOW {
        len := len + 1;
        ioTimeAvg := ioTimeAll / len;
        return;
      }
      var first := timeList[0];
      timeList := timeList[1..];
      ioTimeAll := ioTimeAll - first;
      ioTimeAvg := ioTimeAll / len;
    }
  }

  // The code itself.

  class UmpBdevChannel {
    var iopathList: seq<Path>
    var maxId: nat
    var ios: map<nat, Io>
    var called: seq<(nat, Callback)>
    ghost var crashed: bool

    /** `ump_bdev_channel_create_cb`: one path for every bdev that gives a channel. */
    constructor (channels: seq<bool>)
      ensures Numbered(iopathList, maxId) && ios == map[] && called == [] && !crashed
      ensures forall i :: 0 <= i < |iopathList| ==> iopathList[i].available
      ensures maxId == CountTrue(channels)
    {
      iopathList, maxId, ios, called, crashed := [], 0, map[], [], false;
      new;
      for i := 0 to |channels|
        invariant Numbered(iopathList, maxId) && ios == map[] && called == [] && !crashed
        invariant forall k :: 0 <= k < |iopathList| ==> iopathList[k].available
        invariant maxId + CountTrue(channels[i..]) == CountTrue(channels)
      {
        assert channels[i..][1..] == channels[i + 1..];
        if !channels[i] {
          continue;
        }
        iopathList := iopathList + [Path(maxId, true)];
        maxId := maxId + 1;
      }
    }

    ghost function Abs(): State
      reads this
    {
      State(iopathList, maxId, ios, called, crashed)
    }

    /** `ump_find_iopath_hash`; `traps`: one of its divisions is by zero. */
    method FindIoPathHash(offset: nat, numBlocks: nat) returns (traps: bool, r: Option<nat>)
      ensures traps <==> numBlocks == 0 || maxId == 0
      ensures r == if traps then None else FindHash(iopathList, maxId, offset, numBlocks)
    {
      if numBlocks == 0 || maxId == 0 {
        return true, None;
      }
      var choseId := offset / numBlocks % maxId % 0x1_0000_0000;
      for i := 0 to |iopathList|
        invariant FirstAvailable(iopathList, 0, Some(choseId)) == FirstAvailable(iopathList, i, Some(choseId))
      {
        if iopathList[i].available && choseId == iopathList[i].id {
          return false, Some(i);
        }
      }
      for i := 0 to |iopathList|
        invariant FirstAvailable(iopathList, 0, None) == FirstAvailable(iopathList, i, None)
      {
        if iopathList[i].available {
          return false, Some(i);
        }
      }
      return false, None;
    }

    /** `ump_bdev_submit_request`; false if the code crashes on its way. */
    method SubmitRequest(io: nat, x: Io) returns (ok: bool)
      requires !crashed
      modifies this`ios, this`crashed
      ensures Abs() == Submit(old(Abs()), io, x) && ok == !crashed
    {
      var original := x.cb;
      var traps, iopath := FindIoPathHash(x.offset, x.numBlocks);
      if traps || iopath.None? { // the division, or `count[iopath->id]`
        crashed := true;
        return false;
      }
      ios := ios[io := x.(cb := Wrapped(original, iopath.value), tried := x.tried + [iopath.value])];
      return true;
    }

    /** `ump_bdev_io_completion_cb`. */
    method IoCompletionCb(io: nat, success: bool)
      requires Inv(Abs()) && Enabled(Abs(), Done(io, success))
      modifies this
      ensures Abs() == Step(old(Abs()), Done(io, success))
    {
      var ctx := ios[io].cb;
      if success {
        called := called + [(io, ctx.original)];
        ios := ios - {io};
      } else {
        assert IoOk(Abs(), io);
        iopathList := iopathList[ctx.path := iopathList[ctx.path].(available := false)];
        var _ := SubmitRequest(io, ios[io].(cb := ctx.original));
      }
    }
  }

  function CountTrue(s: seq<bool>): nat {
    if s == [] then 0 else (if s[0] then 1 else 0) + CountTrue(s[1..])
  }
}
