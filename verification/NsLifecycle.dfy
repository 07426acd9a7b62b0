/** Namespaces and the bdevs they back: population, depopulation and bdev destruction, in
    any order, and the controller references they hold
    (nvme/bdev_nvme.c:1601-1633, 2625-2708, 3772-3794, 3842-3993, 4829-4836). */
module NsLifecycle {
  import opened Collections
  import opened Options

  /** One `struct nvme_ns`. `pending` counts the deletions of its I/O paths under way, channel
      by channel; `freed` and `released` how often it was freed and gave its reference back. */
  datatype Ns = Ns(ctrlr: nat, id: nat, inTree: bool, bdev: Option<nat>, pending: nat, freed: nat, released: nat)

  /** One `struct nvme_bdev`. `nsList` is `nvme_ns_list` without its order. */
  datatype Bdev = Bdev(ref: int, nsList: set<nat>, destructed: bool, unregistering: bool)

  /** `ns` and `bdevs` are keyed by object, `ref`, `qpairs` and `creation` by controller. */
  datatype State = State(
    ns: map<nat, Ns>, bdevs: map<nat, Bdev>,
    ref: map<nat, int>, qpairs: map<nat, nat>, creation: map<nat, nat>)

  /** `nvme_ctrlr_get_ns(ctrlr, id) != NULL`. */
  predicate InTree(s: State, c: nat, id: nat) {
    exists n :: n in s.ns && s.ns[n].inTree && s.ns[n].ctrlr == c && s.ns[n].id == id
  }

  datatype Event =
    | Populate(n: nat, c: nat, id: nat, b: nat)
    | QpairCreate(c: nat)
    | QpairDelete(c: nat)
    | ReleaseCreation(c: nat)
    | Depopulate(n: nat)     // `nvme_ctrlr_depopulate_namespace`
    | PathsDeleted(n: nat)   // `bdev_nvme_delete_io_path_done`
    | Destruct(b: nat)       // `bdev_nvme_destruct` begins
    | Detach(b: nat, n: nat) // one round of its loop

  predicate Enabled(s: State, e: Event) {
    match e
    case Populate(n, c, id, b) =>
      && n !in s.ns && c in s.ref && s.ref[c] > 0 && !InTree(s, c, id)
      && (b in s.bdevs ==> !s.bdevs[b].destructed)
    case QpairCreate(c) => c in s.ref && s.ref[c] > 0
    case QpairDelete(c) => c in s.qpairs && s.qpairs[c] > 0
    case ReleaseCreation(c) => c in s.creation && s.creation[c] > 0
    case Depopulate(n) => n in s.ns && s.ns[n].inTree
    case PathsDeleted(n) => n in s.ns && s.ns[n].pending > 0
    case Destruct(b) => b in s.bdevs && !s.bdevs[b].destructed
    case Detach(b, n) => b in s.bdevs && s.bdevs[b].destructed && n in s.bdevs[b].nsList
  }

  /** `nvme_ns_free` and `nvme_ctrlr_release`, which always go together. */
  function FreeAndRelease(s: State, n: nat): State
    requires n in s.ns && s.ns[n].ctrlr in s.ref
  {
    var x := s.ns[n];
    s.(ns := s.ns[n := x.(freed := x.freed + 1, released := x.released + 1)],
       ref := s.ref[x.ctrlr := s.ref[x.ctrlr] - 1])
  }

  /** `nvme_ctrlr_depopulate_namespace_done`. */
  function DepopulateDone(s: State, n: nat): State
    requires n in s.ns && s.ns[n].ctrlr in s.ref
  {
    var s' := s.(ns := s.ns[n := s.ns[n].(inTree := false)]);
    if s.ns[n].bdev.Some? then s' else FreeAndRelease(s', n)
  }

  /** `nvme_ctrlr_depopulate_namespace`: the last namespace of a bdev leaves its memory to
      the bdev's destruction, any other is cut off from the bdev first. */
  function DepopulateStep(s: State, n: nat): State
    requires Linked(s) && n in s.ns
  {
    if s.ns[n].bdev.None? then DepopulateDone(s, n)
    else
      var b := s.ns[n].bdev.value;
      var x := s.bdevs[b];
      if x.ref - 1 == 0 then DepopulateDone(s.(bdevs := s.bdevs[b := x.(ref := 0, unregistering := true)]), n)
      else s.(bdevs := s.bdevs[b := x.(ref := x.ref - 1, nsList := x.nsList - {n})],
              ns := s.ns[n := s.ns[n].(bdev := None, pending := s.ns[n].pending + 1)])
  }

  /** `bdev_nvme_delete_io_path_done`. */
  function PathsDeletedStep(s: State, n: nat): State
    requires Linked(s) && Enabled(s, PathsDeleted(n))
  {
    assert LinkedNs(s, n);
    DepopulateDone(s.(ns := s.ns[n := s.ns[n].(pending := s.ns[n].pending - 1)]), n)
  }

  function PopulateStep(s: State, n: nat, c: nat, id: nat, b: nat): State
    requires c in s.ref
  {
    var x := if b in s.bdevs then s.bdevs[b] else Bdev(0, {}, false, false);
    s.(ns := s.ns[n := Ns(c, id, true, Some(b), 0, 0, 0)],
       bdevs := s.bdevs[b := x.(ref := x.ref + 1, nsList := x.nsList + {n})],
       ref := s.ref[c := s.ref[c] + 1])
  }

  /** One round of `bdev_nvme_destruct`. */
  function DetachStep(s: State, b: nat, n: nat): State
    requires Linked(s) && n in s.ns && b in s.bdevs
  {
    var s' := s.(ns := s.ns[n := s.ns[n].(bdev := None)],
                 bdevs := s.bdevs[b := s.bdevs[b].(nsList := s.bdevs[b].nsList - {n})]);
    if InTree(s, s.ns[n].ctrlr, s.ns[n].id) then s' else FreeAndRelease(s', n)
  }

  function Step(s: State, e: Event): State
    requires Linked(s) && Enabled(s, e)
  {
    match e
    case Populate(n, c, id, b) => PopulateStep(s, n, c, id, b)
    case QpairCreate(c) => s.(ref := s.ref[c := s.ref[c] + 1], qpairs := s.qpairs[c := s.qpairs[c] + 1])
    case QpairDelete(c) => s.(ref := s.ref[c := s.ref[c] - 1], qpairs := s.qpairs[c := s.qpairs[c] - 1])
    case ReleaseCreation(c) => s.(ref := s.ref[c := s.ref[c] - 1], creation := s.creation[c := s.creation[c] - 1])
    case Depopulate(n) => DepopulateStep(s, n)
    case PathsDeleted(n) => PathsDeletedStep(s, n)
    case Destruct(b) => s.(bdevs := s.bdevs[b := s.bdevs[b].(destructed := true)])
    case Detach(b, n) => DetachStep(s, b, n)
  }

  predicate LinkedNs(s: State, n: nat)
    requires n in s.ns
  {
    var x := s.ns[n];
    x.ctrlr in s.ref && (x.bdev.Some? ==> x.bdev.value in s.bdevs && n in s.bdevs[x.bdev.value].nsList)
  }

  predicate LinkedBdev(s: State, b: nat)
    requires b in s.bdevs
  {
    forall n :: n in s.bdevs[b].nsList ==> n in s.ns && s.ns[n].bdev == Some(b)
  }

  /** Pointers and lists agree. */
  predicate Linked(s: State) {
    && s.qpairs.Keys == s.creation.Keys == s.ref.Keys
    && (forall n :: n in s.ns ==> LinkedNs(s, n))
    && (forall b :: b in s.bdevs ==> LinkedBdev(s, b))
  }

  /** Out of the tree and off its bdev. */
  predicate Gone(x: Ns) {
    !x.inTree && x.bdev.None?
  }

  /** A namespace is not freed before it is gone, and gives its reference back when it is. */
  predicate NsOk(x: Ns) {
    && x.released == x.freed && x.pending <= 1 && (x.pending > 0 ==> x.bdev.None?)
    && (if Gone(x) then x.freed + x.pending <= 2 && (x.pending > 0 ==> x.freed == 1) else x.freed == 0)
  }

  /** The namespaces of `c` that have given their reference back `k` times. */
  function Released(m: map<nat, Ns>, c: nat, k: nat): set<nat> {
    set n | n in m && m[n].ctrlr == c && m[n].released == k
  }

  /** The namespaces of a bdev's list that have not been depopulated. */
  function Attached(list: set<nat>, m: map<nat, Ns>): set<nat> {
    set n | n in list && n in m && m[n].inTree
  }

  /** `ref` is the creation reference plus live qpairs plus unreleased namespaces, less those
      that gave theirs back twice. */
  ghost predicate RefsCounted(s: State)
    requires Linked(s)
  {
    forall c :: c in s.ref ==> s.ref[c] == s.creation[c] + s.qpairs[c] + |Released(s.ns, c, 0)| - |Released(s.ns, c, 2)|
  }

  /** A bdev counts the namespaces that have not been depopulated, so the assertion
      `bdev->ref > 0` of depopulation always holds. */
  ghost predicate BdevRefs(s: State) {
    forall b :: b in s.bdevs ==>
      if s.bdevs[b].destructed then |Attached(s.bdevs[b].nsList, s.ns)| <= s.bdevs[b].ref
      else |Attached(s.bdevs[b].nsList, s.ns)| == s.bdevs[b].ref
  }

  predicate NssOk(m: map<nat, Ns>) {
    forall n :: n in m ==> NsOk(m[n])
  }

  ghost predicate Inv(s: State) {
    Linked(s) && NssOk(s.ns) && RefsCounted(s) && BdevRefs(s)
  }

  // Counting.

  lemma {:induction false} ReleasedPut(m: map<nat, Ns>, n: nat, x: Ns, c: nat, k: nat)
    ensures |Released(m[n := x], c, k)| + (if n in m && m[n].ctrlr == c && m[n].released == k then 1 else 0)
         == |Released(m, c, k)| + (if x.ctrlr == c && x.released == k then 1 else 0)
  {
    var before, after := Released(m, c, k), Released(m[n := x], c, k);
    assert after - {n} == before - {n} by {
      assert forall j :: j != n ==> (j in after <==> j in before);
    }
    CardWithout(before, n);
    CardWithout(after, n);
  }

  lemma {:induction false} AttachedPut(list: set<nat>, m: map<nat, Ns>, n: nat, x: Ns)
    ensures |Attached(list, m[n := x])| + (if n in list && n in m && m[n].inTree then 1 else 0)
         == |Attached(list, m)| + (if n in list && x.inTree then 1 else 0)
  {
    var before, after := Attached(list, m), Attached(list, m[n := x]);
    assert after - {n} == before - {n} by {
      assert forall k :: k != n ==> (k in after <==> k in before);
    }
    CardWithout(before, n);
    CardWithout(after, n);
  }

  // Every event replaces one namespace object and at most one bdev.

  /** The reference count stays exact if it moves with the replaced namespace's holding. */
  lemma {:induction false} RefsPut(s: State, s': State, n: nat, x: Ns)
    requires Linked(s) && Linked(s') && RefsCounted(s) && s'.ref.Keys == s.ref.Keys
    requires s'.ns == s.ns[n := x] && s'.creation == s.creation && s'.qpairs == s.qpairs
    requires x.ctrlr in s.ref && (n in s.ns ==> s.ns[n].ctrlr == x.ctrlr)
    requires forall c :: c in s.ref && c != x.ctrlr ==> s'.ref[c] == s.ref[c]
    requires x.released <= 2 && (n in s.ns ==> s.ns[n].released <= 2)
    requires s'.ref[x.ctrlr] == s.ref[x.ctrlr] + 1 - x.released - (if n in s.ns then 1 - s.ns[n].released else 0)
    ensures RefsCounted(s')
  {
    forall c | c in s'.ref
      ensures s'.ref[c] == s'.creation[c] + s'.qpairs[c] + |Released(s'.ns, c, 0)| - |Released(s'.ns, c, 2)|
    {
      ReleasedPut(s.ns, n, x, c, 0);
      ReleasedPut(s.ns, n, x, c, 2);
    }
  }

  /** Bdev counts stay right if the only bdev whose list holds `n` moves with it. */
  lemma {:induction false} BdevsPut(s: State, s': State, n: nat, x: Ns, b: nat)
    requires Linked(s) && BdevRefs(s) && s'.ns == s.ns[n := x] && s'.bdevs.Keys == s.bdevs.Keys + {b}
    requires forall b' :: b' in s.bdevs && b' != b ==> s'.bdevs[b'] == s.bdevs[b'] && n !in s.bdevs[b'].nsList
    requires b in s.bdevs ==> s'.bdevs[b].destructed == s.bdevs[b].destructed
    requires s'.bdevs[b].nsList - {n} == (if b in s.bdevs then s.bdevs[b].nsList else {}) - {n}
    requires s'.bdevs[b].ref == (if b in s.bdevs then s.bdevs[b].ref else 0)
               + (if n in s'.bdevs[b].nsList && x.inTree then 1 else 0)
               - (if b in s.bdevs && n in s.bdevs[b].nsList && s.ns[n].inTree then 1 else 0)
             || (b in s.bdevs && s.bdevs[b].destructed && s'.bdevs[b].ref == s.bdevs[b].ref && n !in s'.bdevs[b].nsList)
    ensures BdevRefs(s')
  {
    forall b' | b' in s'.bdevs
      ensures if s'.bdevs[b'].destructed then |Attached(s'.bdevs[b'].nsList, s'.ns)| <= s'.bdevs[b'].ref
              else |Attached(s'.bdevs[b'].nsList, s'.ns)| == s'.bdevs[b'].ref
    {
      if b' != b {
        AttachedPut(s.bdevs[b'].nsList, s.ns, n, x);
      } else {
        AttachedMove(if b in s.bdevs then s.bdevs[b].nsList else {}, s'.bdevs[b].nsList, s.ns, n, x);
      }
    }
  }

  lemma {:induction false} AttachedMove(list: set<nat>, list': set<nat>, m: map<nat, Ns>, n: nat, x: Ns)
    requires list - {n} == list' - {n}
    ensures |Attached(list', m[n := x])| + (if n in list && n in m && m[n].inTree then 1 else 0)
         == |Attached(list, m)| + (if n in list' && x.inTree then 1 else 0)
    ensures list == {} ==> Attached(list, m) == {}
  {
    AttachedPut(list, m, n, x);
    var put := m[n := x];
    var was, now := Attached(list, put), Attached(list', put);
    assert was - {n} == now - {n} by {
      forall k | k in was - {n} ensures k in now - {n} { assert k in list - {n}; }
      forall k | k in now - {n} ensures k in was - {n} { assert k in list' - {n}; }
    }
    CardWithout(was, n);
    CardWithout(now, n);
  }

  /** Pointers still agree after replacing namespace `n` and what one bdev says of it. */
  lemma {:induction false} LinkedPut(s: State, s': State, n: nat, x: Ns)
    requires Linked(s) && s'.ns == s.ns[n := x] && s'.qpairs.Keys == s'.creation.Keys == s'.ref.Keys == s.ref.Keys
    requires x.ctrlr in s.ref && s.bdevs.Keys <= s'.bdevs.Keys
    requires forall b :: b in s'.bdevs ==>
               && s'.bdevs[b].nsList - {n} == (if b in s.bdevs then s.bdevs[b].nsList else {}) - {n}
               && (n in s'.bdevs[b].nsList <==> x.bdev == Some(b))
    requires x.bdev.Some? ==> x.bdev.value in s'.bdevs
    ensures Linked(s')
  {
    forall k | k in s'.ns ensures LinkedNs(s', k) {
      if k != n {
        assert LinkedNs(s, k);
        if s.ns[k].bdev.Some? {
          var b := s.ns[k].bdev.value;
          assert k in s.bdevs[b].nsList - {n};
        }
      }
    }
    forall b | b in s'.bdevs ensures LinkedBdev(s', b) {
      forall k | k in s'.bdevs[b].nsList ensures k in s'.ns && s'.ns[k].bdev == Some(b) {
        if k != n {
          assert k in s'.bdevs[b].nsList - {n};
          assert LinkedBdev(s, b);
        }
      }
    }
  }

  // Every event keeps the invariant.

  lemma {:induction false} PopulateKeepsInv(s: State, n: nat, c: nat, id: nat, b: nat)
    requires Inv(s) && Enabled(s, Populate(n, c, id, b))
    ensures Inv(PopulateStep(s, n, c, id, b))
  {
    hide RefsCounted, BdevRefs;
    var s' := PopulateStep(s, n, c, id, b);
    assert NssOk(s'.ns);
    hide NssOk;
    assert forall b' :: b' in s.bdevs ==> LinkedBdev(s, b') && n !in s.bdevs[b'].nsList;
    LinkedPut(s, s', n, s'.ns[n]);
    RefsPut(s, s', n, s'.ns[n]);
    BdevsPut(s, s', n, s'.ns[n], b);
  }

  /** Pointers still agree if only one namespace changes, and stays where it is. */
  lemma {:induction false} SamePlace(s: State, s': State, n: nat)
    requires Linked(s) && n in s.ns && n in s'.ns && s'.ns == s.ns[n := s'.ns[n]] && s'.bdevs == s.bdevs
    requires s'.ns[n].ctrlr == s.ns[n].ctrlr && s'.ns[n].bdev == s.ns[n].bdev
    requires s'.qpairs.Keys == s'.creation.Keys == s'.ref.Keys == s.ref.Keys
    ensures Linked(s')
  {
    forall k | k in s'.ns ensures LinkedNs(s', k) {
      assert LinkedNs(s, k);
    }
    forall b | b in s'.bdevs ensures LinkedBdev(s', b) {
      assert LinkedBdev(s, b);
    }
  }

  /** A namespace that stays where it is and gives `k` references back. */
  lemma {:induction false} GivesBack(s: State, s': State, n: nat, k: nat)
    requires Linked(s) && NssOk(s.ns) && RefsCounted(s) && n in s.ns && s.ns[n].ctrlr in s.ref
    requires n in s'.ns && NsOk(s'.ns[n]) && s'.ns[n].released == s.ns[n].released + k
    requires s'.ns[n].ctrlr == s.ns[n].ctrlr && s'.ns[n].bdev == s.ns[n].bdev
    requires s' == s.(ns := s.ns[n := s'.ns[n]], ref := s.ref[s.ns[n].ctrlr := s.ref[s.ns[n].ctrlr] - k])
    ensures Linked(s') && NssOk(s'.ns) && RefsCounted(s')
  {
    assert NsOk(s.ns[n]);
    hide RefsCounted, LinkedBdev, LinkedNs;
    SamePlace(s, s', n);
    RefsPut(s, s', n, s'.ns[n]);
  }

  lemma {:induction false} DoneKeepsInv(s: State, n: nat)
    requires Linked(s) && n in s.ns && s.ns[n].inTree && NssOk(s.ns) && RefsCounted(s)
    ensures LinkedNs(s, n)
    ensures var s' := DepopulateDone(s, n); Linked(s') && NssOk(s'.ns) && RefsCounted(s')
  {
    assert LinkedNs(s, n) && NsOk(s.ns[n]);
    var s', c := DepopulateDone(s, n), s.ns[n].ctrlr;
    var k := if s.ns[n].bdev.Some? then 0 else 1;
    assert s' == s.(ns := s.ns[n := s'.ns[n]], ref := s.ref[c := s.ref[c] - k]);
    hide RefsCounted, LinkedBdev, LinkedNs, NssOk;
    GivesBack(s, s', n, k);
  }

  /** The last namespace of a bdev: its memory is left to the bdev's destruction. */
  lemma {:induction false} LastKeepsInv(s: State, n: nat)
    requires Inv(s) && n in s.ns && s.ns[n].inTree && s.ns[n].bdev.Some?
    requires LinkedNs(s, n) && s.bdevs[s.ns[n].bdev.value].ref - 1 == 0
    ensures Inv(DepopulateStep(s, n))
  {
    hide RefsCounted, BdevRefs;
    var b := s.ns[n].bdev.value;
    var s' := DepopulateStep(s, n);
    assert forall b' :: b' in s.bdevs ==> LinkedBdev(s, b');
    LinkedPut(s, s', n, s'.ns[n]);
    RefsPut(s, s', n, s'.ns[n]);
    BdevsPut(s, s', n, s'.ns[n], b);
  }

  /** Any other namespace is cut off from the bdev. */
  lemma {:induction false} CutKeepsInv(s: State, n: nat)
    requires Inv(s) && n in s.ns && s.ns[n].inTree && s.ns[n].bdev.Some?
    requires LinkedNs(s, n) && s.bdevs[s.ns[n].bdev.value].ref - 1 != 0
    ensures Inv(DepopulateStep(s, n))
  {
    hide RefsCounted, BdevRefs;
    var b := s.ns[n].bdev.value;
    var s' := DepopulateStep(s, n);
    assert forall b' :: b' in s.bdevs ==> LinkedBdev(s, b');
    LinkedPut(s, s', n, s'.ns[n]);
    RefsPut(s, s', n, s'.ns[n]);
    BdevsPut(s, s', n, s'.ns[n], b);
  }

  lemma {:induction false} DepopulateKeepsInv(s: State, n: nat)
    requires Inv(s) && Enabled(s, Depopulate(n))
    ensures Inv(DepopulateStep(s, n))
    ensures s.ns[n].bdev.Some? ==> LinkedNs(s, n) && s.bdevs[s.ns[n].bdev.value].ref > 0
  {
    assert LinkedNs(s, n);
    hide RefsCounted;
    if s.ns[n].bdev.None? {
      DoneKeepsInv(s, n);
      DetachedBdevs(s, DepopulateStep(s, n), n);
    } else {
      var b := s.ns[n].bdev.value;
      assert n in Attached(s.bdevs[b].nsList, s.ns);
      if s.bdevs[b].ref - 1 == 0 {
        LastKeepsInv(s, n);
      } else {
        CutKeepsInv(s, n);
      }
    }
  }

  lemma {:induction false} PathsDeletedIs(s: State, n: nat)
    requires Linked(s) && Enabled(s, PathsDeleted(n)) && NsOk(s.ns[n])
    ensures s.ns[n].ctrlr in s.ref
    ensures var x := s.ns[n];
            var x' := x.(inTree := false, pending := x.pending - 1, freed := x.freed + 1, released := x.released + 1);
            PathsDeletedStep(s, n) == s.(ns := s.ns[n := x'], ref := s.ref[x.ctrlr := s.ref[x.ctrlr] - 1])
  {
    assert LinkedNs(s, n);
  }

  lemma {:induction false} PathsDeletedKeepsInv(s: State, n: nat)
    requires Inv(s) && Enabled(s, PathsDeleted(n))
    ensures Inv(PathsDeletedStep(s, n))
  {
    assert NsOk(s.ns[n]);
    PathsDeletedIs(s, n);
    hide RefsCounted, BdevRefs, LinkedNs, LinkedBdev, NssOk, PathsDeletedStep, DepopulateDone, FreeAndRelease;
    var s' := PathsDeletedStep(s, n);
    GivesBack(s, s', n, 1);
    DetachedBdevs(s, s', n);
  }

  /** Replacing a namespace that is on no list leaves every bdev's count right. */
  lemma {:induction false} DetachedBdevs(s: State, s': State, n: nat)
    requires Linked(s) && BdevRefs(s) && n in s.ns && s.ns[n].bdev.None?
    requires s'.bdevs == s.bdevs && n in s'.ns && s'.ns == s.ns[n := s'.ns[n]]
    ensures BdevRefs(s')
  {
    forall b | b in s'.bdevs
      ensures if s'.bdevs[b].destructed then |Attached(s'.bdevs[b].nsList, s'.ns)| <= s'.bdevs[b].ref
              else |Attached(s'.bdevs[b].nsList, s'.ns)| == s'.bdevs[b].ref
    {
      assert LinkedBdev(s, b);
      AttachedPut(s.bdevs[b].nsList, s.ns, n, s'.ns[n]);
    }
  }

  // What single events do.

  /** The only namespace of its bdev that has not been depopulated. */
  ghost predicate LastOf(s: State, n: nat)
    requires Linked(s) && n in s.ns && s.ns[n].bdev.Some?
  {
    assert LinkedNs(s, n);
    Attached(s.bdevs[s.ns[n].bdev.value].nsList, s.ns) == {n}
  }

  /** Depopulating the last namespace of a bdev takes it out of the tree at once, begins to
      unregister the bdev and leaves the namespace on it, unfreed. Any other one leaves the bdev
      first and stays in the tree until its path deletion, which this begins, is over. The last
      one of a bdev that is not being destructed is the only one on it not yet depopulated. */
  lemma {:induction false} DepopulateLeadsTo(s: State, n: nat)
    requires Inv(s) && Enabled(s, Depopulate(n)) && s.ns[n].bdev.Some? && LinkedNs(s, n)
    ensures var x, t := s.ns[n], Step(s, Depopulate(n));
            var b := x.bdev.value;
            var y := s.bdevs[b];
            && (!y.destructed ==> (LastOf(s, n) <==> y.ref == 1))
            && if y.ref == 1
               then && t.ns == s.ns[n := x.(inTree := false)] && t.ref == s.ref
                    && t.bdevs == s.bdevs[b := y.(ref := 0, unregistering := true)]
               else && t.ns == s.ns[n := x.(bdev := None, pending := 1)] && t.ref == s.ref
                    && t.bdevs == s.bdevs[b := y.(ref := y.ref - 1, nsList := y.nsList - {n})]
  {
    assert NsOk(s.ns[n]);
    if !s.bdevs[s.ns[n].bdev.value].destructed {
      LastIff(s, n);
    }
    hide LastOf, Linked, LinkedNs, NssOk, RefsCounted, BdevRefs;
  }

  lemma {:induction false} LastIff(s: State, n: nat)
    requires Inv(s) && Enabled(s, Depopulate(n)) && s.ns[n].bdev.Some?
    requires LinkedNs(s, n) && !s.bdevs[s.ns[n].bdev.value].destructed
    ensures var ref := s.bdevs[s.ns[n].bdev.value].ref; ref > 0 && (LastOf(s, n) <==> ref == 1)
  {
    var b := s.ns[n].bdev.value;
    hide Linked, NssOk, RefsCounted;
    OneLeft(Attached(s.bdevs[b].nsList, s.ns), n);
  }

  lemma {:induction false} OneLeft(attached: set<nat>, n: nat)
    requires n in attached
    ensures |attached| > 0 && (attached == {n} <==> |attached| == 1)
  {
    CardWithout(attached, n);
    if |attached| == 1 {
      assert attached - {n} == {};
    }
  }

  /** A second depopulation, while the path deletion of the first one is under way, takes the
      namespace out of the tree and frees it. */
  lemma {:induction false} SecondDepopulateFrees(s: State, n: nat)
    requires Inv(s) && Enabled(s, Depopulate(n)) && s.ns[n].bdev.None?
    ensures s.ns[n].ctrlr in s.ref
    ensures var x := s.ns[n];
            Step(s, Depopulate(n)) == s.(ns := s.ns[n := x.(inTree := false, freed := x.freed + 1, released := x.released + 1)],
                                         ref := s.ref[x.ctrlr := s.ref[x.ctrlr] - 1])
  {
    assert LinkedNs(s, n);
    hide Linked, LinkedNs, NssOk, RefsCounted, BdevRefs;
  }

  /** A new namespace joins the bdev it is for, creating it if there is none, and takes one
      reference of its controller. */
  lemma {:induction false} PopulateJoins(s: State, n: nat, c: nat, id: nat, b: nat)
    requires Inv(s) && Enabled(s, Populate(n, c, id, b))
    ensures var t := Step(s, Populate(n, c, id, b));
            && t.ns == s.ns[n := Ns(c, id, true, Some(b), 0, 0, 0)] && t.ref == s.ref[c := s.ref[c] + 1]
            && b in t.bdevs && t.bdevs == s.bdevs[b := t.bdevs[b]] && !t.bdevs[b].destructed
            && t.bdevs[b].ref == (if b in s.bdevs then s.bdevs[b].ref else 0) + 1
            && t.bdevs[b].nsList == (if b in s.bdevs then s.bdevs[b].nsList else {}) + {n}
            && (t.bdevs[b].unregistering <==> b in s.bdevs && s.bdevs[b].unregistering)
            && t.qpairs == s.qpairs && t.creation == s.creation
  {}

  /** A namespace that is detached leaves its bdev, and is freed there and then if and only if no
      namespace with its id is in the tree of its controller. */
  lemma {:induction false} DetachFreesIff(s: State, b: nat, n: nat)
    requires Inv(s) && Enabled(s, Detach(b, n))
    ensures n in s.ns && s.ns[n].ctrlr in s.ref
    ensures var x, t := s.ns[n], Step(s, Detach(b, n));
            var k := if InTree(s, x.ctrlr, x.id) then 0 else 1;
            && t.ns == s.ns[n := x.(bdev := None, freed := x.freed + k, released := x.released + k)]
            && t.ref == s.ref[x.ctrlr := s.ref[x.ctrlr] - k]
            && t.bdevs == s.bdevs[b := s.bdevs[b].(nsList := s.bdevs[b].nsList - {n})]
  {
    assert LinkedBdev(s, b) && LinkedNs(s, n);
    DetachIs(s, b, n);
    hide Linked, NssOk, RefsCounted, BdevRefs, InTree, DetachStep;
  }

  lemma {:induction false} DetachIs(s: State, b: nat, n: nat)
    requires Linked(s) && n in s.ns && b in s.bdevs && s.ns[n].ctrlr in s.ref
    ensures var x, t := s.ns[n], DetachStep(s, b, n);
            var k := if InTree(s, x.ctrlr, x.id) then 0 else 1;
            && t.ns == s.ns[n := x.(bdev := None, freed := x.freed + k, released := x.released + k)]
            && t.ref == s.ref[x.ctrlr := s.ref[x.ctrlr] - k]
            && t.bdevs == s.bdevs[b := s.bdevs[b].(nsList := s.bdevs[b].nsList - {n})]
  {
    hide Linked, InTree;
  }

  /** One round of the destruct loop, `gone` telling that the id lookup found nobody. */
  lemma {:induction false} DetachedKeepsInv(s: State, b: nat, n: nat, s': State, gone: bool)
    requires Inv(s) && Enabled(s, Detach(b, n)) && n in s.ns && s.ns[n].bdev == Some(b)
    requires LinkedNs(s, n) && NsOk(s.ns[n]) && (gone ==> !s.ns[n].inTree)
    requires var cut := s.(ns := s.ns[n := s.ns[n].(bdev := None)],
                           bdevs := s.bdevs[b := s.bdevs[b].(nsList := s.bdevs[b].nsList - {n})]);
             s' == if gone then FreeAndRelease(cut, n) else cut
    ensures Inv(s')
  {
    hide RefsCounted, BdevRefs;
    assert forall b' :: b' in s.bdevs ==> LinkedBdev(s, b');
    LinkedPut(s, s', n, s'.ns[n]);
    RefsPut(s, s', n, s'.ns[n]);
    BdevsPut(s, s', n, s'.ns[n], b);
  }

  lemma {:induction false} DetachKeepsInv(s: State, b: nat, n: nat)
    requires Inv(s) && Enabled(s, Detach(b, n))
    ensures n in s.ns && Inv(DetachStep(s, b, n))
  {
    assert LinkedBdev(s, b) && LinkedNs(s, n) && NsOk(s.ns[n]);
    DetachedKeepsInv(s, b, n, DetachStep(s, b, n), !InTree(s, s.ns[n].ctrlr, s.ns[n].id));
  }

  lemma {:induction false} LinksCarryOver(s: State, s': State)
    requires Linked(s) && s'.ns == s.ns && s'.bdevs.Keys == s.bdevs.Keys
    requires s'.ref.Keys == s'.qpairs.Keys == s'.creation.Keys == s.ref.Keys
    requires forall b :: b in s.bdevs ==> s'.bdevs[b].nsList == s.bdevs[b].nsList
    ensures Linked(s')
  {
    forall n | n in s'.ns ensures LinkedNs(s', n) {
      assert LinkedNs(s, n);
    }
    forall b | b in s'.bdevs ensures LinkedBdev(s', b) {
      assert LinkedBdev(s, b);
    }
  }

  /** References taken and dropped for queue pairs and for the creation, and marking a bdev. */
  lemma {:induction false} CountersKeepInv(s: State, s': State)
    requires Inv(s) && s'.ns == s.ns && s'.bdevs.Keys == s.bdevs.Keys
    requires s'.ref.Keys == s'.qpairs.Keys == s'.creation.Keys == s.ref.Keys
    requires forall b :: b in s.bdevs ==> s'.bdevs[b].nsList == s.bdevs[b].nsList && s'.bdevs[b].ref == s.bdevs[b].ref
    requires forall b :: b in s.bdevs && s.bdevs[b].destructed ==> s'.bdevs[b].destructed
    requires forall c :: c in s.ref ==> s'.ref[c] - s'.creation[c] - s'.qpairs[c] == s.ref[c] - s.creation[c] - s.qpairs[c]
    ensures Inv(s')
  {
    LinksCarryOver(s, s');
  }

  lemma {:induction false} OtherKeepsInv(s: State, e: Event)
    requires Inv(s) && Enabled(s, e) && (e.Destruct? || e.QpairCreate? || e.QpairDelete? || e.ReleaseCreation?)
    ensures Inv(Step(s, e))
  {
    hide NssOk, RefsCounted, BdevRefs;
    CountersKeepInv(s, Step(s, e));
  }

  lemma {:induction false} StepKeepsInv(s: State, e: Event)
    requires Inv(s) && Enabled(s, e)
    ensures Inv(Step(s, e))
  {
    assert Linked(s);
    hide Inv, Linked;
    match e {
      case Populate(n, c, id, b) => PopulateKeepsInv(s, n, c, id, b);
      case Depopulate(n) => DepopulateKeepsInv(s, n);
      case PathsDeleted(n) => PathsDeletedKeepsInv(s, n);
      case Detach(b, n) => DetachKeepsInv(s, b, n);
      case _ => OtherKeepsInv(s, e);
    }
  }

  // Runs.

  ghost predicate Possible(s: State, es: seq<Event>)
    decreases |es|
  {
    es == [] || (Linked(s) && Enabled(s, es[0]) && Possible(Step(s, es[0]), es[1..]))
  }

  ghost function Run(s: State, es: seq<Event>): State
    requires Possible(s, es)
    decreases |es|
  {
    if es == [] then s else Run(Step(s, es[0]), es[1..])
  }

  /** Controllers that have just been created. */
  ghost predicate Init(s: State) {
    && s.ns == map[] && s.bdevs == map[] && s.qpairs.Keys == s.creation.Keys == s.ref.Keys
    && forall c :: c in s.ref ==> s.ref[c] == s.creation[c] == 1 && s.qpairs[c] == 0
  }

  lemma {:induction false} InitInv(s: State)
    requires Init(s)
    ensures Inv(s)
  {
    forall c, k | c in s.ref ensures Released(s.ns, c, k) == {} {}
  }

  lemma {:induction false} RunKeepsInv(s: State, es: seq<Event>)
    requires Inv(s) && Possible(s, es)
    ensures Inv(Run(s, es))
    decreases |es|
  {
    if es != [] {
      StepKeepsInv(s, es[0]);
      hide Step, Inv;
      RunKeepsInv(Step(s, es[0]), es[1..]);
    }
  }

  // How often a namespace is freed.

  /** The destruct loop detaches a namespace that has left the tree, but finds its id there. */
  predicate LeavesBehind(s: State, e: Event, n: nat) {
    n in s.ns && e.Detach? && e.n == n && !s.ns[n].inTree && InTree(s, s.ns[n].ctrlr, s.ns[n].id)
  }

  /** A namespace is depopulated while its paths are still being deleted. */
  predicate HitsPending(s: State, e: Event, n: nat) {
    n in s.ns && e == Depopulate(n) && s.ns[n].pending > 0
  }

  ghost predicate LeftBehind(s: State, es: seq<Event>, n: nat)
    requires Possible(s, es)
    decreases |es|
  {
    es != [] && (LeavesBehind(s, es[0], n) || LeftBehind(Step(s, es[0]), es[1..], n))
  }

  ghost predicate HitPending(s: State, es: seq<Event>, n: nat)
    requires Possible(s, es)
    decreases |es|
  {
    es != [] && (HitsPending(s, es[0], n) || HitPending(Step(s, es[0]), es[1..], n))
  }

  /** How often a namespace that is gone has been freed or will be, when the deletion of its
      paths finishes. */
  function Frees(x: Ns): nat {
    x.freed + x.pending
  }

  function Expected(left: bool, hit: bool): nat {
    if left then 0 else if hit then 2 else 1
  }

  /** What one event does to a namespace. */
  ghost predicate FreesAdd(s: State, e: Event, s': State, n: nat)
    requires n in s.ns
  {
    n in s'.ns &&
    var x, x' := s.ns[n], s'.ns[n];
    var left, hit := LeavesBehind(s, e, n), HitsPending(s, e, n);
    && (Gone(x) ==> Gone(x') && Frees(x') == Frees(x))
    && (Gone(x) || !Gone(x') ==> !left && !hit)
    && (!Gone(x) && Gone(x') ==> Frees(x') == Expected(left, hit))
  }

  lemma {:induction false} StepFrees(s: State, e: Event, n: nat)
    requires Inv(s) && Enabled(s, e) && n in s.ns
    ensures FreesAdd(s, e, Step(s, e), n)
  {
    assert NsOk(s.ns[n]) && LinkedNs(s, n);
    hide FreesAdd, RefsCounted, BdevRefs, NssOk, NsOk, LinkedNs, LinkedBdev;
    match e {
      case Detach(b, m) => DetachFrees(s, b, m, n);
      case Depopulate(m) => DepopulateFrees(s, m, n);
      case PathsDeleted(m) => PathsDeletedFrees(s, m, n);
      case _ => OtherFrees(s, e, n);
    }
  }

  lemma {:induction false} OtherFrees(s: State, e: Event, n: nat)
    requires Linked(s) && Enabled(s, e) && n in s.ns && NsOk(s.ns[n])
    requires !e.Detach? && !e.Depopulate? && !e.PathsDeleted?
    ensures FreesAdd(s, e, Step(s, e), n)
  {
    hide Linked, InTree;
  }

  lemma {:induction false} DetachFrees(s: State, b: nat, m: nat, n: nat)
    requires Linked(s) && Enabled(s, Detach(b, m)) && n in s.ns && NsOk(s.ns[n])
    ensures m in s.ns && FreesAdd(s, Detach(b, m), DetachStep(s, b, m), n)
  {
    assert LinkedBdev(s, b) && LinkedNs(s, m);
    hide Linked, InTree;
  }

  lemma {:induction false} DepopulateFrees(s: State, m: nat, n: nat)
    requires Linked(s) && Enabled(s, Depopulate(m)) && n in s.ns && NsOk(s.ns[n])
    ensures FreesAdd(s, Depopulate(m), DepopulateStep(s, m), n)
  {
    assert LinkedNs(s, m);
    hide Linked, InTree;
  }

  lemma {:induction false} PathsDeletedFrees(s: State, m: nat, n: nat)
    requires Linked(s) && Enabled(s, PathsDeleted(m)) && n in s.ns && NsOk(s.ns[n])
    ensures FreesAdd(s, PathsDeleted(m), PathsDeletedStep(s, m), n)
  {
    assert LinkedNs(s, m);
    hide Linked, InTree;
  }

  lemma {:induction false} StepNewNs(s: State, e: Event, n: nat)
    requires Inv(s) && Enabled(s, e) && n !in s.ns
    ensures n in Step(s, e).ns ==> !Gone(Step(s, e).ns[n])
  {
    hide RefsCounted, BdevRefs;
    match e {
      case Detach(b, m) => assert LinkedBdev(s, b) && LinkedNs(s, m);
      case Depopulate(m) => assert LinkedNs(s, m);
      case _ =>
    }
  }

  lemma {:induction false} RunFrees(s: State, es: seq<Event>, n: nat)
    requires Inv(s) && Possible(s, es)
    ensures n in s.ns ==> n in Run(s, es).ns
    ensures n in Run(s, es).ns ==>
              var x' := Run(s, es).ns[n];
              var left, hit := LeftBehind(s, es, n), HitPending(s, es, n);
              if n in s.ns && Gone(s.ns[n]) then Gone(x') && Frees(x') == Frees(s.ns[n]) && !left && !hit
              else if Gone(x') then Frees(x') == Expected(left, hit)
              else !left && !hit
    decreases |es|
  {
    if es != [] {
      StepKeepsInv(s, es[0]);
      if n in s.ns {
        StepFrees(s, es[0], n);
      } else {
        StepNewNs(s, es[0], n);
      }
      hide Step, Inv, NsOk, Gone, Frees, LeavesBehind, HitsPending;
      RunFrees(Step(s, es[0]), es[1..], n);
    }
  }

  /** Over every run from freshly created controllers: a namespace is not freed before it has
      left the tree and its bdev; from then on it has been freed, or will be when the deletion
      of its paths finishes, exactly once - but never if the destruct loop left it behind, and
      twice if it was depopulated while its paths were being deleted. It gives back one
      reference each time it is freed, and `ref` is the creation reference plus live queue
      pairs plus one for each namespace less what they have given back. */
  lemma {:induction false} NamespacesFreed(s: State, es: seq<Event>, n: nat)
    requires Init(s) && Possible(s, es)
    ensures n in Run(s, es).ns ==>
              var x := Run(s, es).ns[n];
              && x.released == x.freed
              && (!Gone(x) ==> x.freed == 0)
              && (Gone(x) ==> x.freed + x.pending == Expected(LeftBehind(s, es, n), HitPending(s, es, n)))
    ensures var t := Run(s, es);
            forall c :: c in t.ref ==> c in t.creation && c in t.qpairs && t.ref[c] == t.creation[c] + t.qpairs[c] + |Released(t.ns, c, 0)| - |Released(t.ns, c, 2)|
  {
    InitInv(s);
    RunKeepsInv(s, es);
    RunFrees(s, es, n);
    hide Run, LinkedNs, LinkedBdev, BdevRefs, Released, LeftBehind, HitPending;
    var t := Run(s, es);
    assert n in t.ns ==> NsOk(t.ns[n]);
  }

  /** Counting the pending path deletion, a namespace is freed more than once if and only if
      it was depopulated while that was under way. */
  lemma {:induction false} FreedAtMostOnceIff(s: State, es: seq<Event>, n: nat)
    requires Init(s) && Possible(s, es) && n in Run(s, es).ns
    ensures var x := Run(s, es).ns[n];
            x.freed <= 1 && (Gone(x) ==> x.freed + x.pending <= 1) <==> !HitPending(s, es, n)
  {
    InitInv(s);
    RunKeepsInv(s, es);
    RunFrees(s, es, n);
    LeftNotHit(s, es, n);
    hide Run, LinkedNs, LinkedBdev, BdevRefs, RefsCounted, LeftBehind, HitPending;
    assert NsOk(Run(s, es).ns[n]);
  }

  /** No namespace is both left behind and depopulated during its path deletion. */
  lemma {:induction false} LeftNotHit(s: State, es: seq<Event>, n: nat)
    requires Inv(s) && Possible(s, es)
    ensures !(LeftBehind(s, es, n) && HitPending(s, es, n))
    decreases |es|
  {
    if es != [] {
      StepKeepsInv(s, es[0]);
      LeavingGoes(s, es[0], n);
      hide Step, Inv, LeavesBehind, HitsPending;
      LeftNotHit(Step(s, es[0]), es[1..], n);
      if LeavesBehind(s, es[0], n) || HitsPending(s, es[0], n) {
        RunKeepsInv(Step(s, es[0]), es[1..]);
        RunFrees(Step(s, es[0]), es[1..], n);
      }
    }
  }

  lemma {:induction false} LeavingGoes(s: State, e: Event, n: nat)
    requires Inv(s) && Enabled(s, e)
    ensures LeavesBehind(s, e, n) || HitsPending(s, e, n) ==> n in Step(s, e).ns && Gone(Step(s, e).ns[n])
    ensures !(LeavesBehind(s, e, n) && HitsPending(s, e, n))
  {
    if n in s.ns {
      StepFrees(s, e, n);
    }
  }

  /** A namespace the destruct loop leaves behind is never freed, whatever happens next; one
      it detaches after it left the tree is freed at once otherwise. */
  lemma {:induction false} LeftBehindForever(s: State, e: Event, es: seq<Event>, n: nat)
    requires Inv(s) && Enabled(s, e) && Possible(Step(s, e), es)
    requires e.Detach? && e.n == n && n in s.ns && !s.ns[n].inTree
    ensures n in Run(Step(s, e), es).ns
    ensures Run(Step(s, e), es).ns[n].freed == 0 <==> InTree(s, s.ns[n].ctrlr, s.ns[n].id)
    ensures Run(Step(s, e), es).ns[n].freed <= 1
  {
    StepFrees(s, e, n);
    StepKeepsInv(s, e);
    var s' := Step(s, e);
    assert LinkedBdev(s, e.b) && NsOk(s.ns[n]);
    RunFrees(s', es, n);
    RunKeepsInv(s', es);
    hide Run, Step, RefsCounted, BdevRefs, Linked;
    assert NsOk(s'.ns[n]) && NsOk(Run(s', es).ns[n]);
  }

  /** Two namespaces that are not freed differ in controller or id. */
  predicate Apart(m: map<nat, Ns>, n: nat, k: nat)
    requires n in m && k in m
  {
    m[n].freed == 0 && m[k].freed == 0 ==> m[n].ctrlr != m[k].ctrlr || m[n].id != m[k].id
  }

  ghost predicate IdsApart(m: map<nat, Ns>) {
    forall n, k {:trigger Apart(m, n, k)} :: n in m && k in m && n != k ==> Apart(m, n, k)
  }

  /** The id lookup of the destruct loop then finds the namespace itself or nobody. */
  lemma {:induction false} LookupFindsSelf(s: State, n: nat)
    requires Inv(s) && IdsApart(s.ns) && n in s.ns && s.ns[n].freed == 0
    ensures InTree(s, s.ns[n].ctrlr, s.ns[n].id) <==> s.ns[n].inTree
  {
    forall k | k in s.ns && k != n
      ensures !(s.ns[k].inTree && s.ns[k].ctrlr == s.ns[n].ctrlr && s.ns[k].id == s.ns[n].id)
    {
      assert NsOk(s.ns[k]) && Apart(s.ns, k, n);
    }
  }

  /** An id is populated again only after its old namespace was freed, and a namespace is not
      depopulated while its paths are being deleted. */
  predicate Careful(s: State, e: Event) {
    match e
    case Populate(n, c, id, b) => forall m :: m in s.ns && s.ns[m].freed == 0 ==> s.ns[m].ctrlr != c || s.ns[m].id != id
    case Depopulate(n) => n in s.ns ==> s.ns[n].pending == 0
    case _ => true
  }

  ghost predicate AllCareful(s: State, es: seq<Event>)
    requires Possible(s, es)
    decreases |es|
  {
    es == [] || (Careful(s, es[0]) && AllCareful(Step(s, es[0]), es[1..]))
  }

  lemma {:induction false} CarefulStep(s: State, e: Event, n: nat)
    requires Inv(s) && IdsApart(s.ns) && Enabled(s, e) && Careful(s, e)
    ensures IdsApart(Step(s, e).ns) && !LeavesBehind(s, e, n) && !HitsPending(s, e, n)
  {
    var s' := Step(s, e);
    if e.Detach? {
      assert LinkedBdev(s, e.b) && NsOk(s.ns[e.n]);
      LookupFindsSelf(s, e.n);
    }
    forall j, k | j in s'.ns && k in s'.ns && j != k ensures Apart(s'.ns, j, k) {
      SameIdentity(s, e, j);
      SameIdentity(s, e, k);
      if j in s.ns && k in s.ns {
        assert Apart(s.ns, j, k);
      }
    }
  }

  lemma {:induction false} SameIdentity(s: State, e: Event, n: nat)
    requires Inv(s) && Enabled(s, e) && n in Step(s, e).ns
    ensures var x' := Step(s, e).ns[n];
            if n in s.ns then x'.ctrlr == s.ns[n].ctrlr && x'.id == s.ns[n].id && x'.freed >= s.ns[n].freed
            else e.Populate? && e.n == n && x'.ctrlr == e.c && x'.id == e.id
  {
    hide RefsCounted, BdevRefs, NsOk;
    match e {
      case Detach(b, m) => assert LinkedBdev(s, b) && LinkedNs(s, m);
      case Depopulate(m) => assert LinkedNs(s, m);
      case PathsDeleted(m) => assert LinkedNs(s, m);
      case _ =>
    }
  }

  lemma {:induction false} CarefulRun(s: State, es: seq<Event>, n: nat)
    requires Inv(s) && IdsApart(s.ns) && Possible(s, es) && AllCareful(s, es)
    ensures !LeftBehind(s, es, n) && !HitPending(s, es, n)
    decreases |es|
  {
    if es != [] {
      StepKeepsInv(s, es[0]);
      CarefulStep(s, es[0], n);
      hide Step, Inv, Careful, LeavesBehind, HitsPending, IdsApart;
      CarefulRun(Step(s, es[0]), es[1..], n);
    }
  }

  /** Over every such run a namespace has been freed, and has given its reference back, once
      if it is gone, and not at all otherwise; `ref` is the creation reference plus live queue
      pairs plus namespaces that still hold theirs. */
  lemma {:induction false} NamespacesFreedExactlyOnce(s: State, es: seq<Event>, n: nat)
    requires Init(s) && Possible(s, es) && AllCareful(s, es)
    ensures n in Run(s, es).ns ==>
              var x := Run(s, es).ns[n]; x.freed == x.released == if Gone(x) then 1 else 0
    ensures var t := Run(s, es);
            forall c :: c in t.ref ==> c in t.creation && c in t.qpairs && t.ref[c] == t.creation[c] + t.qpairs[c] + |Released(t.ns, c, 0)|
  {
    InitInv(s);
    RunKeepsInv(s, es);
    var t := Run(s, es);
    if n in t.ns {
      FreedOnceOf(s, es, n);
    }
    forall c, m | m in t.ns ensures m !in Released(t.ns, c, 2) {
      FreedOnceOf(s, es, m);
    }
    assert forall c :: Released(t.ns, c, 2) == {};
    hide Run, Possible, AllCareful, NssOk, LinkedNs, LinkedBdev, BdevRefs, Released;
  }

  lemma {:induction false} FreedOnceOf(s: State, es: seq<Event>, n: nat)
    requires Init(s) && Possible(s, es) && AllCareful(s, es) && n in Run(s, es).ns
    ensures var x := Run(s, es).ns[n]; x.freed == x.released == if Gone(x) then 1 else 0
  {
    InitInv(s);
    RunKeepsInv(s, es);
    RunFrees(s, es, n);
    CarefulRun(s, es, n);
    hide Run, Possible, AllCareful, LinkedNs, LinkedBdev, BdevRefs, RefsCounted;
    assert NsOk(Run(s, es).ns[n]);
  }

  // Runs that fail.

  lemma {:induction false} AgainFrees(s: State, n: nat)
    requires Inv(s) && n in s.ns && s.ns[n].inTree && s.ns[n].pending > 0
    ensures Enabled(s, Depopulate(n))
    ensures var s' := Step(s, Depopulate(n));
            Inv(s') && n in s'.ns && s'.ns[n].pending == s'.ns[n].freed == 1
  {
    assert NsOk(s.ns[n]) && LinkedNs(s, n);
    StepKeepsInv(s, Depopulate(n));
    hide Inv;
  }

  /** Depopulated again while its paths are being deleted, a namespace is freed at once, and a
      second time when they are. */
  lemma {:induction false} AgainFreesTwice(s: State, n: nat)
    requires Inv(s) && n in s.ns && s.ns[n].inTree && s.ns[n].pending > 0
    ensures var es := [Depopulate(n), PathsDeleted(n)];
            Possible(s, es) && n in Run(s, es).ns && Run(s, es).ns[n].freed == 2
  {
    AgainFrees(s, n);
    assert Linked(s);
    hide Step, Enabled, Inv, Linked;
    PathsFree(Step(s, Depopulate(n)), n);
    RunOne(s, Depopulate(n), [PathsDeleted(n)]);
    assert [Depopulate(n)] + [PathsDeleted(n)] == [Depopulate(n), PathsDeleted(n)];
  }

  lemma {:induction false} PathsFree(s: State, n: nat)
    requires Inv(s) && n in s.ns && s.ns[n].pending == s.ns[n].freed == 1
    ensures var es := [PathsDeleted(n)];
            Possible(s, es) && n in Run(s, es).ns && Run(s, es).ns[n].freed == 2
  {
    assert NsOk(s.ns[n]);
    PathsDeletedIs(s, n);
    hide RefsCounted, BdevRefs, NssOk, LinkedNs, LinkedBdev, PathsDeletedStep;
    RunOne(s, PathsDeleted(n), []);
  }

  const Fresh := Ns(0, 1, true, Some(0), 0, 0, 0)

  lemma {:induction false} OnePath(s: State)
    requires Init(s) && 0 in s.ref
    ensures Linked(s) && Enabled(s, Populate(0, 0, 1, 0))
    ensures var s1 := Step(s, Populate(0, 0, 1, 0));
            && Inv(s1) && s1.ns == map[0 := Fresh] && s1.bdevs == map[0 := Bdev(1, {0}, false, false)]
            && s1.ref == s.ref[0 := 2]
  {
    InitInv(s);
    StepKeepsInv(s, Populate(0, 0, 1, 0));
    hide RefsCounted, BdevRefs, NssOk, LinkedNs, LinkedBdev;
    assert {} + {0} == {0};
  }

  lemma {:induction false} TwoPaths(s: State)
    requires Inv(s) && s.ns == map[0 := Fresh] && s.bdevs == map[0 := Bdev(1, {0}, false, false)] && 1 in s.ref && s.ref[1] > 0
    ensures Enabled(s, Populate(1, 1, 1, 0))
    ensures var s' := Step(s, Populate(1, 1, 1, 0));
            Inv(s') && 0 in s'.ns && s'.ns[0] == Fresh && 0 in s'.bdevs && s'.bdevs[0].ref == 2
  {
    StepKeepsInv(s, Populate(1, 1, 1, 0));
    hide RefsCounted, BdevRefs, NssOk, LinkedNs, LinkedBdev;
  }

  /** Two namespaces of one bdev: the first is depopulated again while its paths are being
      deleted, and freed twice. */
  lemma {:induction false} SecondDepopulateFreesTwice(s: State)
    requires Init(s) && 0 in s.ref && 1 in s.ref
    ensures var es := [Populate(0, 0, 1, 0), Populate(1, 1, 1, 0), Depopulate(0), Depopulate(0), PathsDeleted(0)];
            Possible(s, es) && 0 in Run(s, es).ns && Run(s, es).ns[0].freed == 2
  {
    OnePath(s);
    var s1 := Step(s, Populate(0, 0, 1, 0));
    TwoPaths(s1);
    var s2 := Step(s1, Populate(1, 1, 1, 0));
    CutOne(s2);
    StepKeepsInv(s2, Depopulate(0));
    var s3 := Step(s2, Depopulate(0));
    AgainFreesTwice(s3, 0);
    hide Step, Linked, Enabled, Inv;
    RunOne(s2, Depopulate(0), [Depopulate(0), PathsDeleted(0)]);
    RunOne(s1, Populate(1, 1, 1, 0), [Depopulate(0), Depopulate(0), PathsDeleted(0)]);
    RunOne(s, Populate(0, 0, 1, 0), [Populate(1, 1, 1, 0), Depopulate(0), Depopulate(0), PathsDeleted(0)]);
  }

  lemma {:induction false} CutOne(s: State)
    requires Linked(s) && 0 in s.ns && s.ns[0] == Fresh && 0 in s.bdevs && s.bdevs[0].ref == 2
    ensures Enabled(s, Depopulate(0))
    ensures var x := Step(s, Depopulate(0)).ns; 0 in x && x[0].inTree && x[0].pending == 1
  {
    assert LinkedNs(s, 0);
  }

  lemma {:induction false} RunOne(s: State, e: Event, es: seq<Event>)
    requires Linked(s) && Enabled(s, e) && Possible(Step(s, e), es)
    ensures Possible(s, [e] + es) && Run(s, [e] + es) == Run(Step(s, e), es)
  {
    assert ([e] + es)[1..] == es;
  }

  lemma {:induction false} LeftToBdev(s: State)
    requires Inv(s) && s.ns == map[0 := Fresh] && s.bdevs == map[0 := Bdev(1, {0}, false, false)] && 0 in s.ref
    ensures Enabled(s, Depopulate(0))
    ensures var s' := Step(s, Depopulate(0));
            && Inv(s') && s'.ns == map[0 := Fresh.(inTree := false)] && s'.bdevs == map[0 := Bdev(0, {0}, false, true)]
            && s'.ref == s.ref
  {
    assert LinkedNs(s, 0);
    StepKeepsInv(s, Depopulate(0));
    hide RefsCounted, BdevRefs, NssOk, LinkedNs, LinkedBdev;
  }

  /** The id of a namespace left to its bdev is populated again before the bdev's destruction,
      which then leaves the old namespace behind. */
  lemma {:induction false} ReusedIdLeavesBehind(s: State)
    requires Init(s) && 0 in s.ref
    ensures var es := [Populate(0, 0, 1, 0), Depopulate(0), Populate(1, 0, 1, 0), Event.Destruct(0), Detach(0, 0)];
            Possible(s, es) && LeftBehind(s, es, 0)
  {
    OnePath(s);
    var s1 := Step(s, Populate(0, 0, 1, 0));
    LeftToBdev(s1);
    var s2 := Step(s1, Depopulate(0));
    ReuseLeaves(s2);
    hide Step, Linked, Enabled, Inv, LeavesBehind;
    LeftOne(s1, Depopulate(0), [Populate(1, 0, 1, 0), Event.Destruct(0), Detach(0, 0)], 0);
    LeftOne(s, Populate(0, 0, 1, 0), [Depopulate(0), Populate(1, 0, 1, 0), Event.Destruct(0), Detach(0, 0)], 0);
  }

  lemma {:induction false} ReuseLeaves(s: State)
    requires Inv(s) && s.bdevs == map[0 := Bdev(0, {0}, false, true)] && 0 in s.ref && s.ref[0] > 0
    requires s.ns == map[0 := Fresh.(inTree := false)]
    ensures var es := [Populate(1, 0, 1, 0), Event.Destruct(0), Detach(0, 0)];
            Possible(s, es) && LeftBehind(s, es, 0)
  {
    var s1 := Step(s, Populate(1, 0, 1, 0));
    StepKeepsInv(s, Populate(1, 0, 1, 0));
    DestructLeaves(s1);
    assert Linked(s) && Enabled(s, Populate(1, 0, 1, 0));
    hide Step, Linked, Enabled, Inv, LeavesBehind;
    LeftOne(s, Populate(1, 0, 1, 0), [Event.Destruct(0), Detach(0, 0)], 0);
  }

  lemma {:induction false} DestructLeaves(s: State)
    requires Inv(s) && 0 in s.bdevs && 0 in s.bdevs[0].nsList && !s.bdevs[0].destructed
    requires 0 in s.ns && s.ns[0] == Fresh.(inTree := false) && 1 in s.ns && s.ns[1] == Fresh
    ensures Possible(s, [Event.Destruct(0), Detach(0, 0)]) && LeftBehind(s, [Event.Destruct(0), Detach(0, 0)], 0)
  {
    hide RefsCounted, BdevRefs, NssOk, LinkedNs, LinkedBdev;
    var s1 := Step(s, Event.Destruct(0));
    StepKeepsInv(s, Event.Destruct(0));
    assert s1.ns[1].inTree && s1.ns[1].ctrlr == 0 && s1.ns[1].id == 1;
    assert LeavesBehind(s1, Detach(0, 0), 0);
    assert Linked(s) && Linked(s1) && Enabled(s, Event.Destruct(0)) && Enabled(s1, Detach(0, 0));
    hide Step, Linked, Enabled, Inv, LeavesBehind;
    LeftOne(s1, Detach(0, 0), [], 0);
    LeftOne(s, Event.Destruct(0), [Detach(0, 0)], 0);
  }

  lemma {:induction false} LeftOne(s: State, e: Event, es: seq<Event>, n: nat)
    requires Linked(s) && Enabled(s, e) && Possible(Step(s, e), es)
    ensures Possible(s, [e] + es)
    ensures LeftBehind(s, [e] + es, n) <==> LeavesBehind(s, e, n) || LeftBehind(Step(s, e), es, n)
  {
    assert ([e] + es)[1..] == es;
  }

  // The code itself, on the tables it updates in place.

  class NvmeTables {
    var ns: map<nat, Ns>
    var bdevs: map<nat, Bdev>
    var ref: map<nat, int>
    var qpairs: map<nat, nat>
    var creation: map<nat, nat>

    function Abs(): State
      reads this
    {
      State(ns, bdevs, ref, qpairs, creation)
    }

    /** `nvme_ctrlr_populate_namespace` with `nvme_bdev_create` or `nvme_bdev_add_ns`. */
    method PopulateNamespace(n: nat, c: nat, id: nat, b: nat)
      requires Linked(Abs()) && Enabled(Abs(), Populate(n, c, id, b))
      modifies this
      ensures Abs() == Step(old(Abs()), Populate(n, c, id, b))
    {
      if b !in bdevs {
        assert {} + {n} == {n};
        bdevs := bdevs[b := Bdev(1, {n}, false, false)];
      } else {
        bdevs := bdevs[b := bdevs[b].(ref := bdevs[b].ref + 1, nsList := bdevs[b].nsList + {n})];
      }
      ns := ns[n := Ns(c, id, true, Some(b), 0, 0, 0)];
      ref := ref[c := ref[c] + 1];
    }

    /** `nvme_ns_free` and `nvme_ctrlr_release`. */
    method Free(n: nat)
      requires n in ns && ns[n].ctrlr in ref
      modifies this`ns, this`ref
      ensures Abs() == FreeAndRelease(old(Abs()), n)
    {
      ns := ns[n := ns[n].(freed := ns[n].freed + 1, released := ns[n].released + 1)];
      ref := ref[ns[n].ctrlr := ref[ns[n].ctrlr] - 1];
    }

    /** `nvme_ctrlr_depopulate_namespace_done`. */
    method DepopulateNamespaceDone(n: nat)
      requires n in ns && ns[n].ctrlr in ref
      modifies this`ns, this`ref
      ensures Abs() == DepopulateDone(old(Abs()), n)
    {
      ns := ns[n := ns[n].(inTree := false)];
      if ns[n].bdev.Some? {
        return;
      }
      Free(n);
    }

    /** `bdev_nvme_delete_io_path_done`, with the deletion it ends. */
    method DeleteIoPathDone(n: nat)
      requires Linked(Abs()) && Enabled(Abs(), PathsDeleted(n))
      modifies this`ns, this`ref
      ensures Abs() == Step(old(Abs()), PathsDeleted(n))
    {
      assert LinkedNs(Abs(), n);
      ns := ns[n := ns[n].(pending := ns[n].pending - 1)];
      DepopulateNamespaceDone(n);
    }

    /** `nvme_ctrlr_depopulate_namespace`, its assertion `bdev->ref > 0` being the invariant's. */
    method DepopulateNamespace(n: nat)
      requires Linked(Abs()) && Enabled(Abs(), Depopulate(n))
      requires ns[n].bdev.Some? ==> ns[n].bdev.value in bdevs && bdevs[ns[n].bdev.value].ref > 0
      modifies this
      ensures Abs() == Step(old(Abs()), Depopulate(n))
    {
      assert LinkedNs(Abs(), n);
      hide Linked, FreeAndRelease;
      if ns[n].bdev.Some? {
        var b := ns[n].bdev.value;
        bdevs := bdevs[b := bdevs[b].(ref := bdevs[b].ref - 1)];
        if bdevs[b].ref == 0 {
          bdevs := bdevs[b := bdevs[b].(unregistering := true)];
        } else {
          bdevs := bdevs[b := bdevs[b].(nsList := bdevs[b].nsList - {n})];
          ns := ns[n := ns[n].(bdev := None, pending := ns[n].pending + 1)];
          return;
        }
      }
      DepopulateNamespaceDone(n);
    }

    /** One round of the loop of `bdev_nvme_destruct`. */
    method DestructRound(b: nat, n: nat)
      requires Linked(Abs()) && Enabled(Abs(), Detach(b, n)) && n in ns
      modifies this
      ensures Abs() == Step(old(Abs()), Detach(b, n))
    {
      assert LinkedNs(Abs(), n);
      var lookup := InTree(Abs(), ns[n].ctrlr, ns[n].id);
      ns := ns[n := ns[n].(bdev := None)];
      bdevs := bdevs[b := bdevs[b].(nsList := bdevs[b].nsList - {n})];
      if !lookup {
        Free(n);
      }
    }

    /** `bdev_nvme_destruct` when nothing interrupts its loop: every namespace of the list
        is detached, each freed exactly if its id is not in its controller's tree. */
    method Destruct(b: nat)
      requires Inv(Abs()) && Enabled(Abs(), Event.Destruct(b))
      modifies this
      ensures Inv(Abs()) && Emptied(old(Abs()), Abs(), b) && bdevs[b].nsList == {}
    {
      ghost var s := Abs();
      StepKeepsInv(s, Event.Destruct(b));
      bdevs := bdevs[b := bdevs[b].(destructed := true)];
      assert Emptied(s, Abs(), b);
      hide Inv, Linked, DetachStep, Emptied;
      while bdevs[b].nsList != {}
        invariant b in bdevs && bdevs[b].destructed && Inv(Abs()) && Emptied(s, Abs(), b)
        decreases |bdevs[b].nsList|
      {
        var n :| n in bdevs[b].nsList;
        DetachKeepsInv(Abs(), b, n);
        EmptiedFurther(s, Abs(), b, n);
        DestructRound(b, n);
      }
    }
  }

  /** `s'` is `s` with `b` being destructed and some of its namespaces detached so far. */
  ghost predicate Emptied(s: State, s': State, b: nat) {
    && b in s.bdevs && b in s'.bdevs && s'.bdevs[b].destructed && s'.bdevs[b].nsList <= s.bdevs[b].nsList
    && s'.ns.Keys == s.ns.Keys
    && forall n :: n in s.ns ==> s'.ns[n] == Detached(s, n, n in s.bdevs[b].nsList && n !in s'.bdevs[b].nsList)
  }

  /** A namespace after its bdev's destruction. */
  function Detached(s: State, n: nat, onList: bool): Ns
    requires n in s.ns
  {
    var x := s.ns[n];
    if !onList then x
    else if InTree(s, x.ctrlr, x.id) then x.(bdev := None)
    else x.(bdev := None, freed := 1, released := 1)
  }

  lemma {:induction false} DetachedAt(s: State, b: nat, n: nat)
    requires Inv(s) && Enabled(s, Detach(b, n)) && n in s.ns
    ensures Linked(s) && s.ns[n].bdev == Some(b)
    ensures DetachStep(s, b, n).ns == s.ns[n := Detached(s, n, true)]
    ensures DetachStep(s, b, n).bdevs == s.bdevs[b := s.bdevs[b].(nsList := s.bdevs[b].nsList - {n})]
  {
    assert LinkedBdev(s, b) && LinkedNs(s, n) && NsOk(s.ns[n]);
  }

  lemma {:induction false} SameTree(s: State, s': State, b: nat, c: nat, id: nat)
    requires Emptied(s, s', b)
    ensures InTree(s', c, id) <==> InTree(s, c, id)
  {
    if InTree(s, c, id) {
      var k :| k in s.ns && s.ns[k].inTree && s.ns[k].ctrlr == c && s.ns[k].id == id;
      assert k in s'.ns && s'.ns[k].inTree;
    }
  }

  lemma {:induction false} EmptiedFurther(s: State, s': State, b: nat, n: nat)
    requires Inv(s') && Emptied(s, s', b) && Enabled(s', Detach(b, n))
    ensures Linked(s') && n in s'.ns
    ensures var t := DetachStep(s', b, n);
            Emptied(s, t, b) && |t.bdevs[b].nsList| < |s'.bdevs[b].nsList|
  {
    assert LinkedBdev(s', b);
    DetachedAt(s', b, n);
    SameTree(s, s', b, s.ns[n].ctrlr, s.ns[n].id);
    assert Detached(s', n, true) == Detached(s, n, true);
    hide Inv, Linked, DetachStep, InTree;
    OneLess(s, s', DetachStep(s', b, n), b, n);
  }

  lemma {:induction false} OneLess(s: State, s': State, t: State, b: nat, n: nat)
    requires Emptied(s, s', b) && n in s'.bdevs[b].nsList && n in s'.ns
    requires t.ns == s'.ns[n := Detached(s, n, true)]
    requires t.bdevs == s'.bdevs[b := s'.bdevs[b].(nsList := s'.bdevs[b].nsList - {n})]
    ensures Emptied(s, t, b) && |t.bdevs[b].nsList| < |s'.bdevs[b].nsList|
  {
    CardWithout(s'.bdevs[b].nsList, n);
  }
}
