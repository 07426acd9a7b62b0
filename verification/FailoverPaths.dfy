/** A controller's alternative paths: failover, reset results, additions and deletions
    (nvme/bdev_nvme.c:1709-1742, 1971-1980, 2316-2349, 5099-5158, 5385-5487). */
module FailoverPaths {

  const EBUSY := 16
  const ENXIO := 6
  const EEXIST := 17

  datatype PathId = PathId(trid: nat, failed: bool)

  /** The first path is the active one; among the others, un-failed ones come first. */
  predicate Ordered(trids: seq<PathId>) {
    trids != [] && forall i, j :: 1 <= i < j < |trids| && trids[i].failed ==> trids[j].failed
  }

  predicate Distinct(trids: seq<PathId>) {
    forall i, j :: 0 <= i < j < |trids| ==> trids[i].trid != trids[j].trid
  }

  predicate Inv(trids: seq<PathId>) {
    Ordered(trids) && Distinct(trids)
  }

  function Mark(p: PathId, failed: bool): PathId {
    p.(failed := failed)
  }

  /** `bdev_nvme_failover_trid`. */
  function FailoverTrid(trids: seq<PathId>, remove: bool): seq<PathId>
    requires trids != []
  {
    if |trids| == 1 then [Mark(trids[0], true)]
    else if remove then trids[1..]
    else trids[1..] + [Mark(trids[0], true)]
  }

  /** The end of `bdev_nvme_reset_complete`. */
  function ResetDone(trids: seq<PathId>, success: bool): seq<PathId>
    requires trids != []
  {
    [Mark(trids[0], !success)] + trids[1..]
  }

  /** Where a new path goes: before the first failed path that is not active. */
  function FirstFailed(trids: seq<PathId>, from: nat): (k: nat)
    requires 1 <= from <= |trids|
    ensures from <= k <= |trids|
    ensures forall i :: from <= i < k ==> !trids[i].failed
    ensures k < |trids| ==> trids[k].failed
    decreases |trids| - from
  {
    if from == |trids| || trids[from].failed then from else FirstFailed(trids, from + 1)
  }

  predicate Registered(trids: seq<PathId>, trid: nat) {
    exists i :: 0 <= i < |trids| && trids[i].trid == trid
  }

  function AddSecondary(trids: seq<PathId>, trid: nat): seq<PathId>
    requires trids != []
  {
    var k := FirstFailed(trids, 1);
    trids[..k] + [PathId(trid, false)] + trids[k..]
  }

  /** The paths not chosen for deletion. */
  function Kept(trids: seq<PathId>, chosen: set<nat>): (r: seq<PathId>)
    ensures |r| <= |trids|
  {
    if trids == [] then []
    else if trids[0].trid in chosen then Kept(trids[1..], chosen)
    else [trids[0]] + Kept(trids[1..], chosen)
  }

  /** What deleting the chosen paths leaves when the active one can be failed over. */
  function Deleted(trids: seq<PathId>, chosen: set<nat>): seq<PathId>
    requires trids != []
  {
    var rest := Kept(trids[1..], chosen);
    if trids[0].trid in chosen && rest != [] then rest else [trids[0]] + rest
  }

  datatype Event =
    | Failover(remove: bool)
    | ResetComplete(success: bool)
    | Add(trid: nat)
    | Delete(chosen: set<nat>, failoverRefused: bool)

  function Step(trids: seq<PathId>, e: Event): seq<PathId>
    requires trids != []
  {
    match e
    case Failover(remove) => FailoverTrid(trids, remove)
    case ResetComplete(success) => ResetDone(trids, success)
    case Add(trid) => if Registered(trids, trid) then trids else AddSecondary(trids, trid)
    case Delete(chosen, refused) =>
      if refused then [trids[0]] + Kept(trids[1..], chosen) else Deleted(trids, chosen)
  }

  lemma {:induction false} KeptKeeps(trids: seq<PathId>, chosen: set<nat>)
    requires Distinct(trids) && forall i, j :: 0 <= i < j < |trids| && trids[i].failed ==> trids[j].failed
    ensures var r := Kept(trids, chosen);
            && Distinct(r) && (forall i, j :: 0 <= i < j < |r| && r[i].failed ==> r[j].failed)
            && (forall p :: p in r <==> p in trids && p.trid !in chosen)
  {
    if trids != [] {
      KeptKeeps(trids[1..], chosen);
      var rest := Kept(trids[1..], chosen);
      assert forall p :: p in trids <==> p == trids[0] || p in trids[1..];
      if trids[0].trid !in chosen {
        forall j | 0 <= j < |rest| ensures rest[j].trid != trids[0].trid && (trids[0].failed ==> rest[j].failed) {
          assert rest[j] in trids[1..];
        }
      }
    }
  }

  lemma {:induction false} DeleteKeepsInv(trids: seq<PathId>, chosen: set<nat>)
    requires Inv(trids)
    ensures Inv([trids[0]] + Kept(trids[1..], chosen)) && Inv(Deleted(trids, chosen))
  {
    var rest := Kept(trids[1..], chosen);
    KeptKeeps(trids[1..], chosen);
    forall j | 0 <= j < |rest| ensures rest[j].trid != trids[0].trid {
      assert rest[j] in trids[1..];
    }
  }

  lemma {:induction false} StepKeepsInv(trids: seq<PathId>, e: Event)
    requires Inv(trids)
    ensures Inv(Step(trids, e))
  {
    match e {
      case Delete(chosen, _) => DeleteKeepsInv(trids, chosen);
      case Add(trid) =>
        if !Registered(trids, trid) {
          AddKeepsInv(trids, trid);
        }
      case _ =>
    }
  }

  lemma {:induction false} AddKeepsInv(trids: seq<PathId>, trid: nat)
    requires Inv(trids) && !Registered(trids, trid)
    ensures Inv(AddSecondary(trids, trid)) && AddSecondary(trids, trid)[0] == trids[0]
  {
    var k := FirstFailed(trids, 1);
    var out := AddSecondary(trids, trid);
    assert forall i :: 0 <= i < |out| ==> out[i] == if i < k then trids[i] else if i == k then PathId(trid, false) else trids[i - 1];
    forall i, j | 0 <= i < j < |out| ensures out[i].trid != out[j].trid && (1 <= i && out[i].failed ==> out[j].failed) {
      assert i < k || (i > k && j > k) || i == k;
    }
  }

  function Run(trids: seq<PathId>, es: seq<Event>): seq<PathId>
    requires Inv(trids)
    decreases |es|
  {
    StepKeepsInv(trids, if es == [] then ResetComplete(true) else es[0]);
    if es == [] then trids else Run(Step(trids, es[0]), es[1..])
  }

  lemma {:induction false} RunKeepsInv(trids: seq<PathId>, es: seq<Event>)
    requires Inv(trids)
    ensures Inv(Run(trids, es))
    decreases |es|
  {
    if es != [] {
      StepKeepsInv(trids, es[0]);
      RunKeepsInv(Step(trids, es[0]), es[1..]);
    }
  }

  /** Over all runs of a new controller: the active path first, then un-failed alternatives,
      then failed ones, no path twice. */
  lemma {:induction false} FailedAlternativesLast(trids: seq<PathId>, es: seq<Event>, i: nat, j: nat)
    requires |trids| == 1
    ensures var t := Run(trids, es);
            && t != []
            && (1 <= i < j < |t| && t[i].failed ==> t[j].failed)
            && (i < j < |t| ==> t[i].trid != t[j].trid)
  {
    RunKeepsInv(trids, es);
    hide Run;
  }

  /** After any run, a failover ends on a failed path if and only if every path it could
      have chosen is failed. */
  lemma {:induction false} FailoverPrefersWorkingPath(trids: seq<PathId>, es: seq<Event>, remove: bool)
    requires Inv(trids)
    ensures var t := Run(trids, es);
            && t != []
            && (FailoverTrid(t, remove)[0].failed <==> forall i :: 1 <= i < |t| ==> t[i].failed)
  {
    RunKeepsInv(trids, es);
  }

  // What happens to each path.

  /** Where a path is in the list, or the list's length. */
  function Position(trids: seq<PathId>, trid: nat): (k: nat)
    ensures k <= |trids| && (k < |trids| ==> trids[k].trid == trid)
    ensures forall i :: 0 <= i < k ==> trids[i].trid != trid
  {
    if trids == [] || trids[0].trid == trid then 0 else 1 + Position(trids[1..], trid)
  }

  /** `out` consists of exactly the paths of `trids` that `keep` names, unchanged and in order. */
  ghost predicate Subsequence(out: seq<PathId>, trids: seq<PathId>, keep: set<nat>) {
    Members(out, trids, keep) && InOrder(out, trids)
  }

  ghost predicate Members(out: seq<PathId>, trids: seq<PathId>, keep: set<nat>) {
    forall p :: p in out <==> p in trids && p.trid in keep
  }

  predicate InOrder(out: seq<PathId>, trids: seq<PathId>) {
    forall i, j :: 0 <= i < j < |out| ==> Position(trids, out[i].trid) < Position(trids, out[j].trid)
  }

  function Trids(trids: seq<PathId>): set<nat> {
    set p | p in trids :: p.trid
  }

  lemma {:induction false} PositionAt(trids: seq<PathId>, i: nat)
    requires Distinct(trids) && i < |trids|
    ensures Position(trids, trids[i].trid) == i
  {}

  lemma {:induction false} TridsSplit(trids: seq<PathId>)
    requires trids != []
    ensures Trids(trids) == {trids[0].trid} + Trids(trids[1..])
    ensures forall p :: p in trids <==> p == trids[0] || p in trids[1..]
  {
    assert forall p :: p in trids <==> p == trids[0] || p in trids[1..];
  }

  lemma {:induction false} KeptIsSubsequence(trids: seq<PathId>, chosen: set<nat>)
    requires Distinct(trids)
    ensures Subsequence(Kept(trids, chosen), trids, Trids(trids) - chosen)
  {
    if trids != [] {
      var keep := Trids(trids[1..]) - chosen;
      KeptIsSubsequence(trids[1..], chosen);
      HeadAndTail(trids, Kept(trids[1..], chosen), keep);
      TridsSplit(trids);
      assert Trids(trids) - chosen == if trids[0].trid in chosen then keep else keep + {trids[0].trid};
      hide Subsequence;
    }
  }

  lemma {:induction false} OutsideHead(trids: seq<PathId>, p: PathId)
    requires Distinct(trids) && trids != [] && p in trids
    ensures p.trid == trids[0].trid <==> p == trids[0]
    ensures p.trid in Trids(trids[1..]) <==> p in trids[1..]
    ensures p in trids[1..] ==> Position(trids, p.trid) == 1 + Position(trids[1..], p.trid)
  {
    var i :| 0 <= i < |trids| && trids[i] == p;
    TridsSplit(trids);
    if p.trid in Trids(trids[1..]) {
      var q :| q in trids[1..] && q.trid == p.trid;
      var j :| 0 <= j < |trids[1..]| && trids[1..][j] == q;
      assert trids[j + 1].trid == trids[i].trid;
    }
    if p in trids[1..] {
      var j :| 0 <= j < |trids[1..]| && trids[1..][j] == p;
      assert trids[j + 1] == p;
    }
  }

  lemma {:induction false} MembersTail(trids: seq<PathId>, out: seq<PathId>, keep: set<nat>)
    requires Distinct(trids) && trids != [] && keep <= Trids(trids[1..]) && Members(out, trids[1..], keep)
    ensures Members(out, trids, keep) && Members([trids[0]] + out, trids, keep + {trids[0].trid})
  {
    TridsSplit(trids);
    assert forall p :: p in [trids[0]] + out <==> p == trids[0] || p in out;
    forall p | p in trids ensures p in out <==> p.trid in keep {
      OutsideHead(trids, p);
    }
    forall p | p in trids ensures p.trid == trids[0].trid <==> p == trids[0] {
      OutsideHead(trids, p);
    }
    hide Trids, Distinct;
  }

  lemma {:induction false} OrderTail(trids: seq<PathId>, out: seq<PathId>)
    requires Distinct(trids) && trids != [] && InOrder(out, trids[1..]) && forall p :: p in out ==> p in trids[1..]
    ensures InOrder(out, trids) && InOrder([trids[0]] + out, trids)
  {
    var all := [trids[0]] + out;
    forall k | 0 <= k < |out| ensures Position(trids, out[k].trid) == 1 + Position(trids[1..], out[k].trid) {
      assert out[k] in out && out[k] in trids[1..];
      assert out[k] in trids;
      OutsideHead(trids, out[k]);
    }
    forall i, j | 0 <= i < j < |all| ensures Position(trids, all[i].trid) < Position(trids, all[j].trid) {
      assert all[j] == out[j - 1] && (i > 0 ==> all[i] == out[i - 1]);
    }
  }

  lemma {:induction false} HeadAndTail(trids: seq<PathId>, out: seq<PathId>, keep: set<nat>)
    requires Distinct(trids) && trids != [] && keep <= Trids(trids[1..]) && Subsequence(out, trids[1..], keep)
    ensures Subsequence(out, trids, keep) && Subsequence([trids[0]] + out, trids, keep + {trids[0].trid})
  {
    MembersTail(trids, out, keep);
    assert forall p :: p in out ==> p in trids[1..];
    hide Members;
    OrderTail(trids, out);
  }

  lemma {:induction false} KeptEmptyIff(trids: seq<PathId>, chosen: set<nat>)
    requires Distinct(trids)
    ensures Kept(trids, chosen) == [] <==> Trids(trids) - chosen == {}
  {
    KeptIsSubsequence(trids, chosen);
    var rest := Kept(trids, chosen);
    hide Kept, InOrder;
    if rest != [] {
      assert rest[0] in rest && rest[0].trid in Trids(trids) - chosen;
    }
    if t :| t in Trids(trids) - chosen {
      var p :| p in trids && p.trid == t;
      assert p in rest;
    }
  }

  /** A deletion keeps exactly the paths that were not chosen, unchanged and in order, and none
      that was chosen but the active one, which stays if the failover from it is refused or
      there is no path left to fail over to. */
  lemma {:induction false} DeleteKeepsUnchosen(trids: seq<PathId>, chosen: set<nat>, refused: bool)
    requires Inv(trids)
    ensures var head, others := trids[0].trid, Trids(trids[1..]) - chosen;
            var stays := head !in chosen || refused || others == {};
            Subsequence(Step(trids, Delete(chosen, refused)), trids, if stays then others + {head} else others)
  {
    KeptIsSubsequence(trids[1..], chosen);
    KeptEmptyIff(trids[1..], chosen);
    HeadAndTail(trids, Kept(trids[1..], chosen), Trids(trids[1..]) - chosen);
    hide Subsequence, Kept, Trids;
  }

  /** So no chosen path is registered any more, but for that one. */
  lemma {:induction false} DeletedAreGone(trids: seq<PathId>, chosen: set<nat>, refused: bool, p: PathId)
    requires Inv(trids) && p in Step(trids, Delete(chosen, refused)) && p.trid in chosen
    ensures p == trids[0] && (refused || Trids(trids[1..]) <= chosen)
  {
    DeleteKeepsUnchosen(trids, chosen, refused);
    var out := Step(trids, Delete(chosen, refused));
    hide Step, InOrder;
    assert p in trids;
    OutsideHead(trids, p);
  }

  /** A failover that removes frees the path it leaves; the others stay as they are. One that
      does not marks it failed and puts it last. The only path is marked failed and stays. */
  lemma {:induction false} FailoverMovesHead(trids: seq<PathId>, remove: bool, k: nat)
    requires Inv(trids) && k < |trids|
    ensures var out := FailoverTrid(trids, remove);
            if |trids| == 1 then out == [PathId(trids[0].trid, true)]
            else
              && (k > 0 ==> k - 1 < |out| && out[k - 1] == trids[k])
              && (remove ==> |out| == |trids| - 1 && !Registered(out, trids[0].trid))
              && (!remove ==> |out| == |trids| && out[|out| - 1] == PathId(trids[0].trid, true))
  {}

  /** Adding a path that is not registered yet puts it in, un-failed, and changes no other; the
      active path stays first. */
  lemma {:induction false} AddInserts(trids: seq<PathId>, trid: nat)
    requires Inv(trids)
    ensures var out := Step(trids, Add(trid));
            if Registered(trids, trid) then out == trids
            else
              && |out| == |trids| + 1 && out[0] == trids[0] && PathId(trid, false) in out
              && (forall p :: p in out <==> p in trids || p == PathId(trid, false))
              && exists k :: 0 < k < |out| && out[..k] + out[k + 1..] == trids
  {
    if !Registered(trids, trid) {
      var k := FirstFailed(trids, 1);
      var out := AddSecondary(trids, trid);
      assert out[k] == PathId(trid, false);
      assert out[..k] + out[k + 1..] == trids;
      assert trids == trids[..k] + trids[k..];
    }
  }

  /** The result of a reset is recorded at the active path and nowhere else. */
  lemma {:induction false} ResetMarksActive(trids: seq<PathId>, success: bool, k: nat)
    requires Inv(trids) && k < |trids|
    ensures var out := Step(trids, ResetComplete(success));
            |out| == |trids| && out[k] == if k == 0 then PathId(trids[0].trid, !success) else trids[k]
  {}

  // Taking turns.

  function Failovers(trids: seq<PathId>, n: nat): (r: seq<PathId>)
    requires trids != []
    ensures |r| == |trids|
    decreases n
  {
    if n == 0 then trids else Failovers(FailoverTrid(trids, false), n - 1)
  }

  /** Repeated failovers rotate through all paths: the `n`-th ends on the `n`-th path, so
      every path gets its turn before any gets a second one. */
  lemma {:induction false} FailoversRotate(trids: seq<PathId>, n: nat)
    requires trids != [] && n <= |trids|
    ensures forall i :: 0 <= i < |trids| ==>
              Failovers(trids, n)[i].trid == trids[if n + i < |trids| then n + i else n + i - |trids|].trid
    decreases n
  {
    if n > 0 {
      var next := FailoverTrid(trids, false);
      FailoversRotate(next, n - 1);
      assert forall i :: 0 <= i < |trids| ==> next[i].trid == trids[if i + 1 < |trids| then i + 1 else 0].trid;
    }
  }

  // The code itself.

  class NvmeCtrlr {
    var trids: seq<PathId>
    var activePathId: nat
    var destruct: bool
    var resetting: bool
    var reconnectIsDelayed: bool

    /** The list is in order and `active_path_id`, here the path's trid, is its head. */
    predicate Valid()
      reads this
    {
      Inv(trids) && activePathId == trids[0].trid
    }

    constructor (trid: nat)
      ensures Valid() && trids == [PathId(trid, false)]
      ensures !destruct && !resetting && !reconnectIsDelayed
    {
      trids, activePathId := [PathId(trid, false)], trid;
      destruct, resetting, reconnectIsDelayed := false, false, false;
    }

    /** `bdev_nvme_failover_trid`. */
    method FailoverToNext(remove: bool)
      requires Valid()
      modifies this`trids, this`activePathId
      ensures Valid() && trids == FailoverTrid(old(trids), remove)
    {
      StepKeepsInv(trids, Event.Failover(remove));
      var pathId := Mark(trids[0], true);
      trids := [pathId] + trids[1..];
      if |trids| > 1 {
        activePathId := trids[1].trid;
        trids := trids[1..];
        if !remove {
          trids := trids + [pathId];
        }
      }
    }

    /** `bdev_nvme_failover`: whether it starts a reset now is for the delayed timer to say. */
    method Failover(remove: bool) returns (rc: int)
      requires Valid()
      modifies this`trids, this`activePathId, this`resetting
      ensures Valid()
      ensures destruct ==> rc == -ENXIO
      ensures !destruct && old(resetting) ==> rc == -EBUSY
      ensures rc == 0 <==> !destruct && !old(resetting)
      ensures rc != 0 ==> trids == old(trids) && resetting == old(resetting)
      ensures rc == 0 ==> trids == FailoverTrid(old(trids), remove) && resetting == !reconnectIsDelayed
    {
      if destruct {
        return -ENXIO;
      }
      if resetting {
        return -EBUSY;
      }
      FailoverToNext(remove);
      if reconnectIsDelayed {
        return 0;
      }
      resetting := true;
      return 0;
    }

    /** The path part of `_bdev_nvme_reset_complete`. */
    method RecordReset(success: bool)
      requires Valid()
      modifies this`trids
      ensures Valid() && trids == ResetDone(old(trids), success)
    {
      StepKeepsInv(trids, ResetComplete(success));
      trids := [Mark(trids[0], !success)] + trids[1..];
    }

    /** `bdev_nvme_check_secondary_trid`'s duplicate test and `_bdev_nvme_add_secondary_trid`. */
    method AddSecondaryTrid(trid: nat) returns (rc: int)
      requires Valid()
      modifies this`trids
      ensures Valid()
      ensures trids == Step(old(trids), Add(trid)) && rc == if Registered(old(trids), trid) then -EEXIST else 0
    {
      for i := 0 to |trids|
        invariant trids == old(trids) && forall k :: 0 <= k < i ==> trids[k].trid != trid
      {
        if trids[i].trid == trid {
          return -EEXIST;
        }
      }
      AddKeepsInv(trids, trid);
      for i := 0 to |trids|
        invariant trids == old(trids) && (i > 0 ==> FirstFailed(trids, 1) == FirstFailed(trids, i))
      {
        if trids[i].failed && trids[i].trid != activePathId {
          trids := trids[..i] + [PathId(trid, false)] + trids[i..];
          return 0;
        }
      }
      trids := trids + [PathId(trid, false)];
      return 0;
    }

    /** The loop of `bdev_nvme_delete` over one controller's paths, from the last to the
        first; `rc` comes in as left by the controllers before. */
    method DeletePaths(chosen: set<nat>, rc0: int) returns (rc: int)
      requires Valid()
      modifies this`trids, this`activePathId, this`resetting, this`destruct
      ensures Valid()
      ensures trids == Step(old(trids), Delete(chosen, old(destruct) || old(resetting)))
      ensures old(destruct) ==> destruct
      ensures !old(destruct) ==> (destruct <==> old(trids)[0].trid in chosen && Kept(old(trids)[1..], chosen) == [])
      ensures old(trids)[0].trid in chosen && Kept(old(trids)[1..], chosen) != [] ==>
                rc == if old(destruct) then -ENXIO else if old(resetting) then -EBUSY else 0
    {
      DeleteKeepsInv(trids, chosen);
      rc := rc0;
      var i := |trids|;
      while i > 1
        invariant 1 <= i <= |old(trids)| && i <= |trids| && trids[..i] == old(trids)[..i]
        invariant trids[i..] == Kept(old(trids)[i..], chosen)
        invariant destruct == old(destruct) && resetting == old(resetting) && activePathId == old(activePathId)
      {
        i := i - 1;
        assert trids[i].trid != activePathId;
        assert old(trids)[i..][1..] == old(trids)[i + 1..] && old(trids)[i..][0] == trids[i];
        if trids[i].trid in chosen {
          ghost var rest := trids[i + 1..];
          trids := trids[..i] + trids[i + 1..];
          assert trids[i..] == rest && trids[..i] == old(trids)[..i];
          rc := 0;
        } else {
          assert trids[i..] == [trids[i]] + trids[i + 1..];
          assert trids[..i] == old(trids)[..i];
        }
      }
      assert trids[0] == trids[..1][0] == old(trids)[..1][0] == old(trids)[0];
      assert trids == [trids[0]] + trids[1..];
      assert trids[0].trid == activePathId;
      if trids[0].trid in chosen {
        if |trids| == 1 {
          destruct := true;
          rc := 0;
        } else {
          rc := Failover(true);
        }
      }
    }
  }
}
