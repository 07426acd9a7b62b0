/** Choosing an I/O path: the circular scan, the queue-depth scan and the round-robin
    counter (nvme/bdev_nvme.c:861-979, 4444-4454). */
module PathSelect {
  import opened Options

  datatype AnaState = Optimized | NonOptimized | OtherState

  /** `connected` is `nvme_io_path_is_connected`, `outstanding` the queue pair's request count. */
  datatype IoPath = IoPath(connected: bool, updating: bool, ana: AnaState, outstanding: nat)

  const UINT32_MAX := 0xffff_ffff

  predicate Serves(p: IoPath, ana: AnaState) {
    p.connected && !p.updating && p.ana == ana
  }

  /** `nvme_io_path_get_next`, on indices. */
  function After(n: nat, prev: Option<nat>): nat {
    if prev.Some? && prev.value + 1 < n then prev.value + 1 else 0
  }

  /** The `k`-th path from `start` on in circular order. */
  function Nth(n: nat, start: nat, k: nat): (i: nat)
    requires start < n && k < n
    ensures i < n
  {
    if start + k < n then start + k else start + k - n
  }

  /** The first of the next `left` paths from `i` on, in circular order, that serves `ana`. */
  function Scan(paths: seq<IoPath>, i: nat, left: nat, ana: AnaState): (r: Option<nat>)
    requires i < |paths|
    ensures r.Some? ==> r.value < |paths|
    decreases left
  {
    if left == 0 then None
    else if Serves(paths[i], ana) then Some(i)
    else Scan(paths, After(|paths|, Some(i)), left - 1, ana)
  }

  function Better(a: Option<nat>, b: Option<nat>): Option<nat> {
    if a.Some? then a else b
  }

  /** What the circular scan after `current` finds. */
  function Find(paths: seq<IoPath>, current: Option<nat>): Option<nat>
    requires paths != []
  {
    var start := After(|paths|, current);
    Better(Scan(paths, start, |paths|, Optimized), Scan(paths, start, |paths|, NonOptimized))
  }

  /** `i` serves `ana` and no path between `start` and it does. */
  ghost predicate CyclicallyFirst(paths: seq<IoPath>, start: nat, ana: AnaState, i: nat)
    requires start < |paths|
  {
    exists k :: 0 <= k < |paths| && i == Nth(|paths|, start, k) && Serves(paths[i], ana)
                && forall j :: 0 <= j < k ==> !Serves(paths[Nth(|paths|, start, j)], ana)
  }

  ghost predicate Nobody(paths: seq<IoPath>, ana: AnaState) {
    forall i :: 0 <= i < |paths| ==> !Serves(paths[i], ana)
  }

  lemma {:induction false} ScanFinds(paths: seq<IoPath>, start: nat, done: nat, ana: AnaState)
    requires start < |paths| && done <= |paths|
    requires forall j :: 0 <= j < done ==> !Serves(paths[Nth(|paths|, start, j)], ana)
    ensures var i := if done < |paths| then Nth(|paths|, start, done) else start;
            match Scan(paths, i, |paths| - done, ana)
            case Some(r) => CyclicallyFirst(paths, start, ana, r)
            case None => Nobody(paths, ana)
    decreases |paths| - done
  {
    if done == |paths| {
      forall i | 0 <= i < |paths| ensures !Serves(paths[i], ana) {
        assert i == Nth(|paths|, start, if i >= start then i - start else i - start + |paths|);
      }
    } else if !Serves(paths[Nth(|paths|, start, done)], ana) {
      ScanFinds(paths, start, done + 1, ana);
    }
  }

  /** The scan returns the cyclically next optimized path if there is one, else the
      cyclically next non-optimized one, and nothing only if there is neither. */
  lemma {:induction false} FindIsCyclicallyNextBest(paths: seq<IoPath>, current: Option<nat>)
    requires paths != []
    ensures var start := After(|paths|, current);
            match Find(paths, current)
            case Some(i) =>
              if Nobody(paths, Optimized) then CyclicallyFirst(paths, start, NonOptimized, i)
              else CyclicallyFirst(paths, start, Optimized, i)
            case None => Nobody(paths, Optimized) && Nobody(paths, NonOptimized)
  {
    var start := After(|paths|, current);
    ScanFinds(paths, start, 0, Optimized);
    ScanFinds(paths, start, 0, NonOptimized);
  }

  /** What the scan finds is connected, its namespace's state known and accessible; it finds
      nothing only if no path is all that. */
  lemma {:induction false} FoundIsUsable(paths: seq<IoPath>, current: Option<nat>)
    requires paths != []
    ensures match Find(paths, current)
            case Some(i) => i < |paths| && paths[i].connected && !paths[i].updating && paths[i].ana != OtherState
            case None => forall i :: 0 <= i < |paths| ==> !paths[i].connected || paths[i].updating || paths[i].ana == OtherState
  {
    FindIsCyclicallyNextBest(paths, current);
    if Find(paths, current).None? {
      forall i | 0 <= i < |paths| ensures !paths[i].connected || paths[i].updating || paths[i].ana == OtherState {
        assert !Serves(paths[i], Optimized) && !Serves(paths[i], NonOptimized);
      }
    }
  }

  // The queue-depth scan.

  /** The earliest of the first `n` paths serving `ana` with the fewest outstanding requests. */
  function Least(paths: seq<IoPath>, ana: AnaState, n: nat): (r: Option<nat>)
    requires n <= |paths|
    ensures r.Some? ==> r.value < n
  {
    if n == 0 then None
    else
      var r := Least(paths, ana, n - 1);
      if Serves(paths[n - 1], ana) && paths[n - 1].outstanding < LeastDepth(paths, r) then Some(n - 1) else r
  }

  /** Depths of `UINT32_MAX` are never chosen. */
  predicate Candidate(p: IoPath, ana: AnaState) {
    Serves(p, ana) && p.outstanding < UINT32_MAX
  }

  lemma {:induction false} LeastIsEarliestMinimum(paths: seq<IoPath>, ana: AnaState, n: nat)
    requires n <= |paths|
    ensures match Least(paths, ana, n)
            case None => forall i :: 0 <= i < n ==> !Candidate(paths[i], ana)
            case Some(r) =>
              && Candidate(paths[r], ana)
              && (forall i :: 0 <= i < n && Candidate(paths[i], ana) ==> paths[r].outstanding <= paths[i].outstanding)
              && (forall i :: 0 <= i < r && Candidate(paths[i], ana) ==> paths[r].outstanding < paths[i].outstanding)
  {
    if n > 0 {
      LeastIsEarliestMinimum(paths, ana, n - 1);
    }
  }

  function LeastDepth(paths: seq<IoPath>, r: Option<nat>): nat
    requires r.Some? ==> r.value < |paths|
  {
    if r.Some? then paths[r.value].outstanding else UINT32_MAX
  }

  // One I/O's choice.

  datatype Policy = ActivePassive | RoundRobin(minIo: nat) | QueueDepth

  datatype Choice = Choice(current: Option<nat>, counter: nat, path: Option<nat>)

  function Rescan(paths: seq<IoPath>, policy: Policy, current: Option<nat>, counter: nat): Choice
    requires paths != []
  {
    if policy.QueueDepth? then
      Choice(current, counter, Better(Least(paths, Optimized, |paths|), Least(paths, NonOptimized, |paths|)))
    else
      var r := Find(paths, current);
      var cached := if policy.ActivePassive? && Scan(paths, After(|paths|, current), |paths|, Optimized).None? then current else r;
      Choice(cached, counter, r)
  }

  function Choose(paths: seq<IoPath>, policy: Policy, current: Option<nat>, counter: nat): Choice
    requires paths != []
  {
    if current.Some? && policy.ActivePassive? then Choice(current, counter, current)
    else if current.Some? && policy.RoundRobin? then
      if counter + 1 < policy.minIo then Choice(current, counter + 1, current) else Rescan(paths, policy, current, 0)
    else Rescan(paths, policy, current, counter)
  }

  /** `struct nvme_bdev_channel`, its path list being fixed here. */
  class NvmeBdevChannel {
    var ioPaths: seq<IoPath>
    var current: Option<nat>
    var policy: Policy
    var rrCounter: nat

    /** `_bdev_nvme_find_io_path`; dereferences the first path, so the list is not empty. */
    method FindIoPathCircular() returns (r: Option<nat>)
      requires ioPaths != [] && !policy.QueueDepth?
      modifies this`current
      ensures Choice(current, rrCounter, r) == Rescan(ioPaths, policy, old(current), rrCounter)
    {
      var n := |ioPaths|;
      var start := After(n, current);
      var nonOptimized: Option<nat> := None;
      var ioPath := start;
      ghost var left := n;
      while true
        invariant 0 < left <= n && ioPath == Nth(n, start, n - left) && current == old(current)
        invariant Scan(ioPaths, start, n, Optimized) == Scan(ioPaths, ioPath, left, Optimized)
        invariant Scan(ioPaths, start, n, NonOptimized)
               == Better(nonOptimized, Scan(ioPaths, ioPath, left, NonOptimized))
        decreases left
      {
        var p := ioPaths[ioPath];
        if p.connected && !p.updating {
          match p.ana {
            case Optimized =>
              current := Some(ioPath);
              return Some(ioPath);
            case NonOptimized =>
              if nonOptimized.None? {
                nonOptimized := Some(ioPath);
              }
            case OtherState =>
          }
        }
        ioPath := After(n, Some(ioPath));
        left := left - 1;
        if ioPath == start {
          break;
        }
      }
      if !policy.ActivePassive? {
        current := nonOptimized;
      }
      r := nonOptimized;
    }

    /** `_bdev_nvme_find_io_path_min_qd`. */
    method FindIoPathMinQd() returns (r: Option<nat>)
      ensures r == Better(Least(ioPaths, Optimized, |ioPaths|), Least(ioPaths, NonOptimized, |ioPaths|))
    {
      var optimized: Option<nat>, nonOptimized: Option<nat> := None, None;
      var optMinQd, nonOptMinQd := UINT32_MAX, UINT32_MAX;
      for i := 0 to |ioPaths|
        invariant optimized == Least(ioPaths, Optimized, i) && optMinQd == LeastDepth(ioPaths, optimized)
        invariant nonOptimized == Least(ioPaths, NonOptimized, i) && nonOptMinQd == LeastDepth(ioPaths, nonOptimized)
      {
        var p := ioPaths[i];
        if !p.connected || p.updating {
          continue;
        }
        match p.ana {
          case Optimized =>
            if p.outstanding < optMinQd {
              optMinQd, optimized := p.outstanding, Some(i);
            }
          case NonOptimized =>
            if p.outstanding < nonOptMinQd {
              nonOptMinQd, nonOptimized := p.outstanding, Some(i);
            }
          case OtherState =>
        }
      }
      r := if optimized.Some? then optimized else nonOptimized;
    }

    /** `bdev_nvme_find_io_path`. */
    method FindIoPath() returns (r: Option<nat>)
      requires ioPaths != []
      modifies this`current, this`rrCounter
      ensures Choice(current, rrCounter, r) == Choose(ioPaths, policy, old(current), old(rrCounter))
    {
      if current.Some? {
        if policy.ActivePassive? {
          return current;
        } else if policy.RoundRobin? {
          rrCounter := rrCounter + 1;
          if rrCounter < policy.minIo {
            return current;
          }
          rrCounter := 0;
        }
      }
      if policy.QueueDepth? {
        r := FindIoPathMinQd();
      } else {
        r := FindIoPathCircular();
      }
    }
  }

  // Many I/Os over paths that do not change.

  /** The paths the next `n` I/Os get. */
  function Picks(paths: seq<IoPath>, policy: Policy, current: Option<nat>, counter: nat, n: nat): (r: seq<Option<nat>>)
    requires paths != []
    ensures |r| == n
    decreases n
  {
    if n == 0 then []
    else
      var c := Choose(paths, policy, current, counter);
      [c.path] + Picks(paths, policy, c.current, c.counter, n - 1)
  }

  /** Active-passive stays on one path, cached or not. */
  lemma {:induction false} ActivePassiveSticks(paths: seq<IoPath>, current: Option<nat>, counter: nat, n: nat)
    requires paths != []
    ensures forall i, j :: 0 <= i < j < n ==>
              Picks(paths, ActivePassive, current, counter, n)[i] == Picks(paths, ActivePassive, current, counter, n)[j]
    decreases n
  {
    StickyPicks(paths, current, counter, n);
  }

  lemma {:induction false} StickyPicks(paths: seq<IoPath>, current: Option<nat>, counter: nat, n: nat)
    requires paths != []
    ensures var first := Choose(paths, ActivePassive, current, counter).path;
            forall i :: 0 <= i < n ==> Picks(paths, ActivePassive, current, counter, n)[i] == first
    decreases n
  {
    if n > 0 {
      StickyPicks(paths, Choose(paths, ActivePassive, current, counter).current, counter, n - 1);
    }
  }

  // I/Os over paths whose states change in between.

  /** What I/Os get that find the paths in `states`, one after the other. */
  function PicksAs(states: seq<seq<IoPath>>, policy: Policy, current: Option<nat>, counter: nat): (r: seq<Option<nat>>)
    requires forall i :: 0 <= i < |states| ==> states[i] != []
    ensures |r| == |states|
  {
    if states == [] then []
    else
      var c := Choose(states[0], policy, current, counter);
      [c.path] + PicksAs(states[1..], policy, c.current, c.counter)
  }

  ghost predicate FirstInList(paths: seq<IoPath>, ana: AnaState, i: Option<nat>) {
    && i.Some? && i.value < |paths| && Serves(paths[i.value], ana)
    && forall j :: 0 <= j < i.value ==> !Serves(paths[j], ana)
  }

  lemma {:induction false} CyclicFromHead(paths: seq<IoPath>, ana: AnaState, i: nat)
    requires paths != [] && CyclicallyFirst(paths, 0, ana, i)
    ensures FirstInList(paths, ana, Some(i))
  {
    forall j | 0 <= j < i ensures !Serves(paths[j], ana) {
      assert j == Nth(|paths|, 0, j);
    }
  }

  lemma {:induction false} CachedStays(states: seq<seq<IoPath>>, i: nat, counter: nat, k: nat)
    requires (forall j :: 0 <= j < |states| ==> states[j] != []) && k < |states|
    ensures PicksAs(states, ActivePassive, Some(i), counter)[k] == Some(i)
  {
    if k > 0 {
      CachedStays(states[1..], i, counter, k - 1);
    }
  }

  /** Active-passive with nothing cached: until some I/O finds an optimized path every I/O
      gets the first non-optimized one there is then, without caching it. The I/O that finds
      an optimized path gets the first of those, and so does every later one. */
  lemma {:induction false} ActivePassiveFollows(states: seq<seq<IoPath>>, counter: nat, j: nat, k: nat)
    requires (forall i :: 0 <= i < |states| ==> states[i] != []) && j <= k < |states|
    requires forall i :: 0 <= i < j ==> Nobody(states[i], Optimized)
    ensures var pick := PicksAs(states, ActivePassive, None, counter)[k];
            && (!Nobody(states[j], Optimized) ==> FirstInList(states[j], Optimized, pick))
            && (j == k && Nobody(states[j], Optimized) ==>
                  if Nobody(states[j], NonOptimized) then pick.None? else FirstInList(states[j], NonOptimized, pick))
    decreases k
  {
    hide Scan, CyclicallyFirst, Nobody, FirstInList;
    var c := FirstChoice(states[0], counter);
    if j > 0 {
      ActivePassiveFollows(states[1..], counter, j - 1, k - 1);
    } else if k > 0 && c.current.Some? {
      CachedStays(states[1..], c.current.value, counter, k - 1);
    }
  }

  /** With nothing cached, active-passive caches what it finds if and only if it is optimized. */
  lemma {:induction false} FirstChoice(paths: seq<IoPath>, counter: nat) returns (c: Choice)
    requires paths != []
    ensures c == Choose(paths, ActivePassive, None, counter) && c.counter == counter
    ensures if Nobody(paths, Optimized)
            then && c.current == None
                 && if Nobody(paths, NonOptimized) then c.path.None? else FirstInList(paths, NonOptimized, c.path)
            else c.current == c.path && FirstInList(paths, Optimized, c.path)
  {
    c := Choose(paths, ActivePassive, None, counter);
    ScanFinds(paths, 0, 0, Optimized);
    ScanFinds(paths, 0, 0, NonOptimized);
    FindIsCyclicallyNextBest(paths, None);
    if c.path.Some? {
      CyclicFromHead(paths, if Nobody(paths, Optimized) then NonOptimized else Optimized, c.path.value);
    }
  }

  /** Round robin: an I/O before the switch stays and is counted. Any other gets the best path
      that comes next after the cached one, caches it and starts to count again. */
  lemma {:induction false} RoundRobinStep(paths: seq<IoPath>, minIo: nat, current: Option<nat>, counter: nat)
    requires paths != []
    ensures var c := Choose(paths, RoundRobin(minIo), current, counter);
            if current.Some? && counter + 1 < minIo then c == Choice(current, counter + 1, current)
            else && c.current == c.path && c.counter == (if current.Some? then 0 else counter)
                 && match c.path
                    case Some(i) =>
                      if Nobody(paths, Optimized) then CyclicallyFirst(paths, After(|paths|, current), NonOptimized, i)
                      else CyclicallyFirst(paths, After(|paths|, current), Optimized, i)
                    case None => Nobody(paths, Optimized) && Nobody(paths, NonOptimized)
  {
    FindIsCyclicallyNextBest(paths, current);
  }

  /** Queue depth: whatever is cached, the I/O gets an optimized path if there is a candidate,
      else a non-optimized one, with the fewest requests of its class; the earliest of those. */
  lemma {:induction false} QueueDepthStep(paths: seq<IoPath>, current: Option<nat>, counter: nat)
    requires paths != []
    ensures var c := Choose(paths, QueueDepth, current, counter);
            && c.current == current && c.counter == counter
            && match c.path
               case None => forall i :: 0 <= i < |paths| ==> !Candidate(paths[i], Optimized) && !Candidate(paths[i], NonOptimized)
               case Some(r) =>
                 && r < |paths| && (Candidate(paths[r], Optimized) || Candidate(paths[r], NonOptimized))
                 && (Candidate(paths[r], NonOptimized) ==> forall i :: 0 <= i < |paths| ==> !Candidate(paths[i], Optimized))
                 && (forall i :: 0 <= i < |paths| && Candidate(paths[i], paths[r].ana) ==>
                       paths[r].outstanding <= paths[i].outstanding)
                 && (forall i :: 0 <= i < r && Candidate(paths[i], paths[r].ana) ==> paths[r].outstanding < paths[i].outstanding)
  {
    LeastIsEarliestMinimum(paths, Optimized, |paths|);
    LeastIsEarliestMinimum(paths, NonOptimized, |paths|);
  }

  // Round robin.

  /** The indices from `from` on of the paths serving `ana`, ascending. */
  function Servers(paths: seq<IoPath>, ana: AnaState, from: nat): (b: seq<nat>)
    requires from <= |paths|
    ensures forall i :: 0 <= i < |b| ==> from <= b[i] < |paths|
    decreases |paths| - from
  {
    if from == |paths| then []
    else if Serves(paths[from], ana) then [from] + Servers(paths, ana, from + 1)
    else Servers(paths, ana, from + 1)
  }

  lemma {:induction false} ServersAre(paths: seq<IoPath>, ana: AnaState, from: nat)
    requires from <= |paths|
    ensures var b := Servers(paths, ana, from);
            && (forall i :: 0 <= i < |b| ==> from <= b[i] < |paths|)
            && (forall i, j :: 0 <= i < j < |b| ==> b[i] < b[j])
            && (forall i :: from <= i < |paths| ==> (Serves(paths[i], ana) <==> i in b))
    decreases |paths| - from
  {
    if from < |paths| {
      ServersAre(paths, ana, from + 1);
    }
  }

  /** The best class that has a path. */
  function Best(paths: seq<IoPath>): seq<nat> {
    if Servers(paths, Optimized, 0) != [] then Servers(paths, Optimized, 0) else Servers(paths, NonOptimized, 0)
  }

  /** They are the optimized paths, or the non-optimized ones if there is none of those. */
  lemma {:induction false} BestAre(paths: seq<IoPath>, i: nat)
    requires i < |paths|
    ensures i in Best(paths) <==>
              paths[i].connected && !paths[i].updating
              && (paths[i].ana == Optimized || (paths[i].ana == NonOptimized && Nobody(paths, Optimized)))
  {
    ServersAre(paths, Optimized, 0);
    ServersAre(paths, NonOptimized, 0);
    var optimized := Servers(paths, Optimized, 0);
    if optimized != [] {
      assert Serves(paths[optimized[0]], Optimized);
    }
    assert i in optimized <==> Serves(paths[i], Optimized);
  }

  function Following(k: nat, t: nat): nat {
    if t + 1 < k then t + 1 else 0
  }

  lemma {:induction false} ScanReaches(paths: seq<IoPath>, i: nat, left: nat, ana: AnaState)
    requires i < |paths| && Servers(paths, ana, i) != [] && Servers(paths, ana, i)[0] < i + left
    ensures Scan(paths, i, left, ana) == Some(Servers(paths, ana, i)[0])
    decreases left
  {
    if !Serves(paths[i], ana) {
      ScanReaches(paths, i + 1, left - 1, ana);
    }
  }

  lemma {:induction false} ScanWraps(paths: seq<IoPath>, i: nat, left: nat, ana: AnaState)
    requires i < |paths| && Servers(paths, ana, i) == [] && |paths| - i <= left
    ensures Scan(paths, i, left, ana) == Scan(paths, 0, left - (|paths| - i), ana)
    decreases |paths| - i
  {
    ServersAre(paths, ana, i);
    assert !Serves(paths[i], ana);
    if i + 1 < |paths| {
      ScanWraps(paths, i + 1, left - 1, ana);
    }
  }

  /** The next server after the `t`-th is the `t + 1`-st. */
  lemma {:induction false} ServersNext(paths: seq<IoPath>, ana: AnaState, from: nat, b: seq<nat>, t: nat, rest: seq<nat>)
    requires from <= |paths| && b == Servers(paths, ana, from) && t < |b| && rest == Servers(paths, ana, b[t] + 1)
    ensures if t + 1 < |b| then rest != [] && rest[0] == b[t + 1] else rest == []
    decreases |paths| - from
  {
    hide Serves;
    assert from < |paths|;
    var next := Servers(paths, ana, from + 1);
    if !Serves(paths[from], ana) {
      ServersNext(paths, ana, from + 1, next, t, rest);
    } else if t > 0 {
      assert b[t] == next[t - 1] && (t + 1 < |b| ==> b[t + 1] == next[t]);
      ServersNext(paths, ana, from + 1, next, t - 1, rest);
    }
  }

  lemma {:induction false} ScanNextServer(paths: seq<IoPath>, ana: AnaState, b: seq<nat>, t: nat)
    requires b == Servers(paths, ana, 0) && t < |b|
    ensures Scan(paths, After(|paths|, Some(b[t])), |paths|, ana) == Some(b[Following(|b|, t)])
  {
    hide Servers, Scan, Serves;
    var i := b[t] + 1;
    FirstServer(paths, ana, b, t);
    ServersNext(paths, ana, 0, b, t, Servers(paths, ana, i));
    if t + 1 < |b| {
      ScanReaches(paths, i, |paths|, ana);
    } else if i == |paths| {
      ScanReaches(paths, 0, |paths|, ana);
    } else {
      ScanWraps(paths, i, |paths|, ana);
      ScanReaches(paths, 0, i, ana);
    }
  }

  lemma FirstServer(paths: seq<IoPath>, ana: AnaState, b: seq<nat>, t: nat)
    requires b == Servers(paths, ana, 0) && t < |b|
    ensures b[0] <= b[t]
  {
    ServersAre(paths, ana, 0);
  }

  lemma {:induction false} ScanNobody(paths: seq<IoPath>, i: nat, left: nat, ana: AnaState)
    requires i < |paths| && Servers(paths, ana, 0) == []
    ensures Scan(paths, i, left, ana) == None
    decreases left
  {
    ServersAre(paths, ana, 0);
    assert !Serves(paths[i], ana);
    if left > 0 {
      ScanNobody(paths, After(|paths|, Some(i)), left - 1, ana);
    }
  }

  /** A switch goes to the next path of the best class, in list order, wrapping. */
  lemma {:induction false} FindRotates(paths: seq<IoPath>, t: nat)
    requires paths != [] && t < |Best(paths)|
    ensures Find(paths, Some(Best(paths)[t])) == Some(Best(paths)[Following(|Best(paths)|, t)])
  {
    if Servers(paths, Optimized, 0) != [] {
      ScanNextServer(paths, Optimized, Best(paths), t);
    } else {
      ScanNobody(paths, After(|paths|, Some(Best(paths)[t])), |paths|, Optimized);
      ScanNextServer(paths, NonOptimized, Best(paths), t);
    }
  }

  /** Any switch finds some path of the best class. */
  lemma {:induction false} FindHitsBest(paths: seq<IoPath>, current: Option<nat>) returns (t: nat)
    requires paths != [] && Best(paths) != []
    ensures t < |Best(paths)| && Find(paths, current) == Some(Best(paths)[t])
  {
    FindIsCyclicallyNextBest(paths, current);
    ServersAre(paths, Optimized, 0);
    ServersAre(paths, NonOptimized, 0);
    var ana := if Servers(paths, Optimized, 0) != [] then Optimized else NonOptimized;
    assert Serves(paths[Best(paths)[0]], ana);
    if ana == NonOptimized {
      ScanNobody(paths, After(|paths|, current), |paths|, Optimized);
      assert Nobody(paths, Optimized);
    }
    var i := Find(paths, current).value;
    assert Serves(paths[i], ana) && i in Best(paths);
    t :| t < |Best(paths)| && Best(paths)[t] == i;
  }

  /** The next I/O makes a switch. */
  predicate Switching(minIo: nat, current: Option<nat>, counter: nat) {
    current.None? || counter + 1 >= minIo
  }

  function Copies(p: Option<nat>, n: nat): (r: seq<Option<nat>>)
    ensures |r| == n && multiset(r)[p] == n
    ensures forall q :: q != p ==> multiset(r)[q] == 0
  {
    if n == 0 then [] else [p] + Copies(p, n - 1)
  }

  /** The rest of a block, after its first I/O. */
  lemma {:induction false} RestOfBlock(paths: seq<IoPath>, minIo: nat, c: nat, counter: nat, n: nat)
    requires paths != [] && counter < minIo
    ensures Picks(paths, RoundRobin(minIo), Some(c), counter, minIo - 1 - counter + n)
         == Copies(Some(c), minIo - 1 - counter) + Picks(paths, RoundRobin(minIo), Some(c), minIo - 1, n)
    decreases minIo - counter
  {
    if counter + 1 < minIo {
      RestOfBlock(paths, minIo, c, counter + 1, n);
    }
  }

  /** From a switch on, one path gets `minIo` I/Os and then the next switch is due. */
  lemma {:induction false} Block(paths: seq<IoPath>, minIo: nat, current: Option<nat>, counter: nat, n: nat)
    requires paths != [] && minIo > 0 && Switching(minIo, current, counter) && (current.None? ==> counter == 0)
    requires Find(paths, current).Some?
    ensures Picks(paths, RoundRobin(minIo), current, counter, minIo + n)
         == Copies(Find(paths, current), minIo) + Picks(paths, RoundRobin(minIo), Find(paths, current), minIo - 1, n)
  {
    assert Choose(paths, RoundRobin(minIo), current, counter) == Choice(Find(paths, current), 0, Find(paths, current));
    hide Find, Choose;
    RestOfBlock(paths, minIo, Find(paths, current).value, 0, n);
  }

  /** How many switches it takes from position `t` of the rotation to position `u`. */
  function Distance(k: nat, t: nat, u: nat): nat
    requires t < k && u < k
  {
    if u > t then u - t else u - t + k
  }

  /** After `j` switches from position `t`, exactly the next `j` positions have had their share. */
  lemma {:induction false} Shares(paths: seq<IoPath>, minIo: nat, t: nat, j: nat, u: nat)
    requires paths != [] && minIo > 0 && t < |Best(paths)| && j <= |Best(paths)| && u < |Best(paths)|
    ensures Given(paths, minIo, Some(Best(paths)[t]), minIo - 1, j * minIo, Best(paths)[u])
         == if Distance(|Best(paths)|, t, u) <= j then minIo else 0
    decreases j
  {
    hide Find, Best;
    var b := Best(paths);
    if j > 0 {
      hide Given;
      FindRotates(paths, t);
      Times(j, minIo);
      BestDistinct(paths, Following(|b|, t), u);
      BlockGives(paths, minIo, Some(b[t]), minIo - 1, (j - 1) * minIo, b[u]);
      Shares(paths, minIo, Following(|b|, t), j - 1, u);
    }
  }

  lemma {:induction false} BestDistinct(paths: seq<IoPath>, t: nat, u: nat)
    requires t < |Best(paths)| && u < |Best(paths)|
    ensures t != u ==> Best(paths)[t] != Best(paths)[u]
  {
    ServersAre(paths, Optimized, 0);
    ServersAre(paths, NonOptimized, 0);
  }

  lemma Times(j: nat, m: nat)
    requires j > 0
    ensures j * m == m + (j - 1) * m
  {}

  /** How many of the next `n` I/Os go to path `p`. */
  function Given(paths: seq<IoPath>, minIo: nat, current: Option<nat>, counter: nat, n: nat, p: nat): nat
    requires paths != []
  {
    multiset(Picks(paths, RoundRobin(minIo), current, counter, n))[Some(p)]
  }

  lemma {:induction false} BlockGives(paths: seq<IoPath>, minIo: nat, current: Option<nat>, counter: nat, n: nat, p: nat)
    requires paths != [] && minIo > 0 && Switching(minIo, current, counter) && (current.None? ==> counter == 0)
    requires Find(paths, current).Some?
    ensures Given(paths, minIo, current, counter, minIo + n, p)
         == (if Find(paths, current) == Some(p) then minIo else 0)
            + Given(paths, minIo, Find(paths, current), minIo - 1, n, p)
  {
    hide Find, Picks;
    Block(paths, minIo, current, counter, n);
  }

  /** Fairness: with stable states, over `k` best-class paths, every `k * minIo` I/Os from
      a switch on give each of them exactly `minIo`. */
  lemma {:induction false} RoundRobinIsFair(paths: seq<IoPath>, minIo: nat, current: Option<nat>, counter: nat, u: nat)
    requires paths != [] && minIo > 0 && u < |Best(paths)|
    requires Switching(minIo, current, counter) && (current.None? ==> counter == 0)
    ensures Given(paths, minIo, current, counter, |Best(paths)| * minIo, Best(paths)[u]) == minIo
  {
    hide Find, Best, Given;
    var k := |Best(paths)|;
    var t := FindHitsBest(paths, current);
    Times(k, minIo);
    BestDistinct(paths, t, u);
    BlockGives(paths, minIo, current, counter, (k - 1) * minIo, Best(paths)[u]);
    Shares(paths, minIo, t, k - 1, u);
  }

  /** The validation of `bdev_nvme_set_multipath_policy`; `UINT32_MAX` means "not given". */
  function AcceptMinIo(roundRobin: bool, rrMinIo: nat): Option<nat> {
    if roundRobin then
      if rrMinIo == UINT32_MAX then Some(1) else if rrMinIo == 0 then None else Some(rrMinIo)
    else if rrMinIo != UINT32_MAX then None
    else Some(rrMinIo)
  }

  /** The setter refuses a count of zero, and any count without round robin; "not given" is one. */
  lemma {:induction false} SettingAccepted(roundRobin: bool, rrMinIo: nat)
    ensures AcceptMinIo(roundRobin, rrMinIo).None? <==> (if roundRobin then rrMinIo == 0 else rrMinIo != UINT32_MAX)
    ensures roundRobin && rrMinIo > 0 ==> AcceptMinIo(true, rrMinIo) == Some(if rrMinIo == UINT32_MAX then 1 else rrMinIo)
    ensures !roundRobin && rrMinIo == UINT32_MAX ==> AcceptMinIo(false, rrMinIo) == Some(UINT32_MAX)
  {}

  /** Whatever the policy setter accepts for round robin is fair. */
  lemma {:induction false} AcceptedPolicyIsFair(paths: seq<IoPath>, rrMinIo: nat, u: nat)
    requires paths != [] && u < |Best(paths)| && AcceptMinIo(true, rrMinIo).Some?
    ensures Given(paths, AcceptMinIo(true, rrMinIo).value, None, 0, |Best(paths)| * AcceptMinIo(true, rrMinIo).value, Best(paths)[u])
         == AcceptMinIo(true, rrMinIo).value
  {
    RoundRobinIsFair(paths, AcceptMinIo(true, rrMinIo).value, None, 0, u);
  }
}
