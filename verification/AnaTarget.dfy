/** The target side of the ANA log: which groups a controller reports and how a window of
    the page is written into a request's vectors (nvmf/ctrlr.c:2206-2224, 2253-2353). */
module AnaTarget {
  import opened Options
  import opened Scatter
  import opened AnaPage

  /** `ns[i]` is the group of the namespace with NSID `i + 1`, if it is active;
      `anaGroup[i]` is the subsystem's counter for group `i + 1`. */
  datatype Subsystem = Subsystem(
    anaReporting: bool,
    listenerStates: Option<seq<AnaState>>,
    anaGroup: seq<nat>,
    ns: seq<Option<nat>>)

  ghost predicate Valid(sub: Subsystem) {
    && |sub.ns| == |sub.anaGroup| < 0x1_0000_0000
    && (forall i :: 0 <= i < |sub.ns| && sub.ns[i].Some? ==> 1 <= sub.ns[i].value <= |sub.ns|)
    && (forall i :: 0 <= i < |sub.anaGroup| ==> sub.anaGroup[i] < 0x1_0000_0000)
    && (sub.listenerStates.Some? ==> |sub.listenerStates.value| == |sub.ns|)
  }

  /** `nvmf_ctrlr_get_ana_state`. */
  function GetAnaState(sub: Subsystem, grp: nat): AnaState
    requires Valid(sub) && 1 <= grp <= |sub.ns|
  {
    if !sub.anaReporting then OPTIMIZED
    else if sub.listenerStates.None? then INACCESSIBLE
    else sub.listenerStates.value[grp - 1]
  }

  /** NSIDs above `from` that belong to group `grp`, ascending. */
  function Members(sub: Subsystem, grp: nat, from: nat): (r: seq<nat>)
    requires from <= |sub.ns| < 0x1_0000_0000
    ensures |r| <= |sub.ns| - from
    ensures forall k :: 0 <= k < |r| ==> r[k] < 0x1_0000_0000
    decreases |sub.ns| - from
  {
    if from == |sub.ns| then []
    else if sub.ns[from] == Some(grp) then [from + 1] + Members(sub, grp, from + 1)
    else Members(sub, grp, from + 1)
  }

  /** The groups above `from` whose counter is not zero. */
  function GroupsFrom(sub: Subsystem, from: nat): (gs: seq<Group>)
    requires Valid(sub) && from <= |sub.ns|
    ensures |gs| <= |sub.ns| - from
    decreases |sub.ns| - from
  {
    if from == |sub.ns| then []
    else
      var rest := GroupsFrom(sub, from + 1);
      if sub.anaGroup[from] == 0 then rest
      else [Group(from + 1, sub.anaGroup[from], GetAnaState(sub, from + 1), Members(sub, from + 1, 0))] + rest
  }

  function Groups(sub: Subsystem): seq<Group>
    requires Valid(sub)
  {
    GroupsFrom(sub, 0)
  }

  /** The whole page this controller would return. */
  function AnaLogPage(sub: Subsystem): seq<Byte>
    requires Valid(sub)
  {
    PageBytes(Groups(sub))
  }

  // The subsystem's counters and namespace table stay in step.

  ghost predicate CountsMatch(sub: Subsystem)
    requires Valid(sub)
  {
    forall g :: 0 <= g < |sub.ns| ==> sub.anaGroup[g] == |Members(sub, g + 1, 0)|
  }

  function AddNs(sub: Subsystem, nsid: nat, grp: nat): Subsystem
    requires Valid(sub) && 1 <= nsid <= |sub.ns| && 1 <= grp <= |sub.ns|
  {
    sub.(ns := sub.ns[nsid - 1 := Some(grp)], anaGroup := sub.anaGroup[grp - 1 := sub.anaGroup[grp - 1] + 1])
  }

  function RemoveNs(sub: Subsystem, nsid: nat): Subsystem
    requires Valid(sub) && 1 <= nsid <= |sub.ns| && sub.ns[nsid - 1].Some?
    requires sub.anaGroup[sub.ns[nsid - 1].value - 1] > 0
  {
    var g := sub.ns[nsid - 1].value - 1;
    sub.(ns := sub.ns[nsid - 1 := None], anaGroup := sub.anaGroup[g := sub.anaGroup[g] - 1])
  }

  /** Changing one table entry changes only the member counts of the two groups involved. */
  lemma {:induction false} MembersUpdate(sub: Subsystem, sub': Subsystem, i: nat, grp: nat, from: nat)
    requires i < |sub.ns| == |sub'.ns| < 0x1_0000_0000 && from <= |sub.ns|
    requires forall k :: 0 <= k < |sub.ns| && k != i ==> sub'.ns[k] == sub.ns[k]
    ensures |Members(sub', grp, from)| + (if from <= i && sub.ns[i] == Some(grp) then 1 else 0)
         == |Members(sub, grp, from)| + (if from <= i && sub'.ns[i] == Some(grp) then 1 else 0)
    decreases |sub.ns| - from
  {
    if from < |sub.ns| {
      MembersUpdate(sub, sub', i, grp, from + 1);
    }
  }

  /** Adding a namespace and removing it keep every counter equal to its group's size. */
  lemma {:induction false} AddKeepsCounts(sub: Subsystem, nsid: nat, grp: nat)
    requires Valid(sub) && CountsMatch(sub)
    requires 1 <= nsid <= |sub.ns| && 1 <= grp <= |sub.ns| && sub.ns[nsid - 1].None?
    ensures Valid(AddNs(sub, nsid, grp)) && CountsMatch(AddNs(sub, nsid, grp))
  {
    var sub' := AddNs(sub, nsid, grp);
    forall g | 0 <= g < |sub.ns|
      ensures sub'.anaGroup[g] == |Members(sub', g + 1, 0)|
    {
      MembersUpdate(sub, sub', nsid - 1, g + 1, 0);
    }
  }

  lemma {:induction false} RemoveKeepsCounts(sub: Subsystem, nsid: nat)
    requires Valid(sub) && CountsMatch(sub)
    requires 1 <= nsid <= |sub.ns| && sub.ns[nsid - 1].Some?
    ensures sub.anaGroup[sub.ns[nsid - 1].value - 1] > 0
    ensures Valid(RemoveNs(sub, nsid)) && CountsMatch(RemoveNs(sub, nsid))
  {
    var grp := sub.ns[nsid - 1].value;
    var table := sub.(ns := sub.ns[nsid - 1 := None]);
    MembersUpdate(sub, table, nsid - 1, grp, 0);
    var sub' := RemoveNs(sub, nsid);
    forall g | 0 <= g < |sub.ns|
      ensures sub'.anaGroup[g] == |Members(sub', g + 1, 0)|
    {
      MembersUpdate(sub, sub', nsid - 1, g + 1, 0);
    }
  }

  /** An addition that fails after the counter was raised: the namespace is taken out of the
      table again, the counter stays. */
  function FailAddNs(sub: Subsystem, nsid: nat, grp: nat): Subsystem
    requires Valid(sub) && 1 <= nsid <= |sub.ns| && 1 <= grp <= |sub.ns|
  {
    AddNs(sub, nsid, grp).(ns := sub.ns[nsid - 1 := None])
  }

  datatype NsOp = Add(nsid: nat, grp: nat, fails: bool) | Remove(nsid: nat)

  /** What the code asks of an operation; counters are taken not to wrap. */
  predicate OpOk(sub: Subsystem, op: NsOp)
    requires Valid(sub)
  {
    match op
    case Add(nsid, grp, _) =>
      && 1 <= nsid <= |sub.ns| && 1 <= grp <= |sub.ns| && sub.ns[nsid - 1].None?
      && sub.anaGroup[grp - 1] + 1 < 0x1_0000_0000
    case Remove(nsid) => 1 <= nsid <= |sub.ns| && sub.ns[nsid - 1].Some? && sub.anaGroup[sub.ns[nsid - 1].value - 1] > 0
  }

  function Apply(sub: Subsystem, op: NsOp): (r: Subsystem)
    requires Valid(sub) && OpOk(sub, op)
    ensures Valid(r) && |r.ns| == |sub.ns|
  {
    match op
    case Add(nsid, grp, fails) => if fails then FailAddNs(sub, nsid, grp) else AddNs(sub, nsid, grp)
    case Remove(nsid) => RemoveNs(sub, nsid)
  }

  ghost predicate OpsOk(sub: Subsystem, ops: seq<NsOp>)
    requires Valid(sub)
    decreases |ops|
  {
    ops == [] || (OpOk(sub, ops[0]) && OpsOk(Apply(sub, ops[0]), ops[1..]))
  }

  ghost function ApplyAll(sub: Subsystem, ops: seq<NsOp>): (r: Subsystem)
    requires Valid(sub) && OpsOk(sub, ops)
    ensures Valid(r) && |r.ns| == |sub.ns|
    decreases |ops|
  {
    if ops == [] then sub else ApplyAll(Apply(sub, ops[0]), ops[1..])
  }

  /** How many additions to group `grp` fail late. */
  function LateFailures(ops: seq<NsOp>, grp: nat): nat {
    if ops == [] then 0
    else (if ops[0].Add? && ops[0].fails && ops[0].grp == grp then 1 else 0) + LateFailures(ops[1..], grp)
  }

  lemma {:induction false} ApplyCounts(sub: Subsystem, op: NsOp, g: nat)
    requires Valid(sub) && OpOk(sub, op) && g < |sub.ns|
    ensures Apply(sub, op).anaGroup[g] - |Members(Apply(sub, op), g + 1, 0)|
         == sub.anaGroup[g] - |Members(sub, g + 1, 0)| + (if op.Add? && op.fails && op.grp == g + 1 then 1 else 0)
  {
    MembersUpdate(sub, Apply(sub, op), op.nsid - 1, g + 1, 0);
  }

  /** Over any additions and removals each counter is its group's size plus the additions to
      it that failed late. */
  lemma {:induction false} CountersDrift(sub: Subsystem, ops: seq<NsOp>, g: nat)
    requires Valid(sub) && OpsOk(sub, ops) && g < |sub.ns|
    ensures ApplyAll(sub, ops).anaGroup[g] - |Members(ApplyAll(sub, ops), g + 1, 0)|
         == sub.anaGroup[g] - |Members(sub, g + 1, 0)| + LateFailures(ops, g + 1)
    decreases |ops|
  {
    if ops != [] {
      ApplyCounts(sub, ops[0], g);
      CountersDrift(Apply(sub, ops[0]), ops[1..], g);
    }
  }

  /** Counters in step stay in step if and only if no addition fails late. */
  lemma {:induction false} CountsStayMatchedIff(sub: Subsystem, ops: seq<NsOp>)
    requires Valid(sub) && CountsMatch(sub) && OpsOk(sub, ops)
    ensures CountsMatch(ApplyAll(sub, ops)) <==> forall k :: 0 <= k < |ops| ==> !(ops[k].Add? && ops[k].fails)
  {
    forall g | 0 <= g < |sub.ns| ensures ApplyAll(sub, ops).anaGroup[g] == |Members(ApplyAll(sub, ops), g + 1, 0)| + LateFailures(ops, g + 1) {
      CountersDrift(sub, ops, g);
    }
    if k :| 0 <= k < |ops| && ops[k].Add? && ops[k].fails {
      GroupsInRange(sub, ops, k);
      LateFailureCounts(ops, k);
      assert ApplyAll(sub, ops).anaGroup[ops[k].grp - 1] > |Members(ApplyAll(sub, ops), ops[k].grp, 0)|;
    } else {
      forall g ensures LateFailures(ops, g) == 0 {
        NoLateFailure(ops, g);
      }
    }
  }

  lemma {:induction false} GroupsInRange(sub: Subsystem, ops: seq<NsOp>, k: nat)
    requires Valid(sub) && OpsOk(sub, ops) && k < |ops| && ops[k].Add?
    ensures 1 <= ops[k].grp <= |sub.ns|
    decreases k
  {
    if k > 0 {
      GroupsInRange(Apply(sub, ops[0]), ops[1..], k - 1);
    }
  }

  lemma {:induction false} LateFailureCounts(ops: seq<NsOp>, k: nat)
    requires k < |ops| && ops[k].Add? && ops[k].fails
    ensures LateFailures(ops, ops[k].grp) > 0
    decreases k
  {
    if k > 0 {
      LateFailureCounts(ops[1..], k - 1);
    }
  }

  lemma {:induction false} NoLateFailure(ops: seq<NsOp>, grp: nat)
    requires forall k :: 0 <= k < |ops| ==> !(ops[k].Add? && ops[k].fails)
    ensures LateFailures(ops, grp) == 0
  {
    if ops != [] {
      NoLateFailure(ops[1..], grp);
    }
  }

  /** With counters in step every reported descriptor is exact. */
  lemma {:induction false} GroupsExact(sub: Subsystem, from: nat)
    requires Valid(sub) && CountsMatch(sub) && from <= |sub.ns|
    ensures Exact(GroupsFrom(sub, from))
    decreases |sub.ns| - from
  {
    if from < |sub.ns| {
      GroupsExact(sub, from + 1);
    }
  }

  // The window printer.

  /** The cursor's vectors held `was`, and now `out` has been stored from their start. */
  ghost predicate Wrote(ctx: CopyCtx, was: seq<Byte>, out: seq<Byte>)
    reads ctx, ctx.iovs
  {
    ctx.Valid() && ctx.Pos() == |out| <= |was| && Flat(ctx.iovs) == WriteAt(was, 0, out)
  }

  /** One chunk of the page: skipped if the window begins after it, otherwise the part
      inside the window is copied and the window goes on at the start of what follows. */
  method EmitChunk(ctx: CopyCtx, ghost was: seq<Byte>, ghost out: seq<Byte>, chunk: seq<Byte>, ghost rest: seq<Byte>,
                   offset: nat, length: nat)
    returns (offset': nat, length': nat, ghost out': seq<Byte>)
    requires Wrote(ctx, was, out) && |out + Window(chunk + rest, offset, length)| <= |was|
    modifies ctx`curIovIdx, ctx`curIovOffset, ctx.iovs
    ensures Wrote(ctx, was, out')
    ensures out + Window(chunk + rest, offset, length) == out' + Window(rest, offset', length')
  {
    WindowSplit(chunk, rest, offset, length);
    if offset >= |chunk| {
      return offset - |chunk|, length, out;
    }
    var copyLen := Min(|chunk| - offset, length);
    var piece := chunk[offset..offset + copyLen];
    var copied := ctx.CopyBuf(piece);
    assert copied == copyLen && piece[..copied] == piece;
    WriteAtTwice(was, 0, out, piece);
    return 0, length - copied, out + piece;
  }

  /** The header's group counter, as the code counts it. */
  method CountGroups(sub: Subsystem) returns (n: nat)
    requires Valid(sub)
    ensures n == |Groups(sub)|
  {
    n := 0;
    for g := 0 to |sub.ns|
      invariant n + |GroupsFrom(sub, g)| == |Groups(sub)|
    {
      if sub.anaGroup[g] > 0 {
        n := n + 1;
      }
    }
  }

  lemma MemberBytes(sub: Subsystem, grp: nat, k: nat, after: seq<Byte>)
    requires k < |sub.ns| < 0x1_0000_0000 && sub.ns[k] == Some(grp)
    ensures NsidBytes(Members(sub, grp, k)) + after
         == ToLe(k + 1, NSID_SIZE) + (NsidBytes(Members(sub, grp, k + 1)) + after)
  {}

  /** The NSIDs of one group: the inner loop of the printer. */
  method EmitMembers(ctx: CopyCtx, ghost was: seq<Byte>, ghost out: seq<Byte>, sub: Subsystem, grp: nat,
                     ghost after: seq<Byte>, offset: nat, length: nat)
    returns (offset': nat, length': nat, ghost out': seq<Byte>)
    requires |sub.ns| < 0x1_0000_0000 && Wrote(ctx, was, out)
    requires |out + Window(NsidBytes(Members(sub, grp, 0)) + after, offset, length)| <= |was|
    modifies ctx`curIovIdx, ctx`curIovOffset, ctx.iovs
    ensures Wrote(ctx, was, out')
    ensures out + Window(NsidBytes(Members(sub, grp, 0)) + after, offset, length) == out' + Window(after, offset', length')
  {
    offset', length', out' := offset, length, out;
    ghost var target := out + Window(NsidBytes(Members(sub, grp, 0)) + after, offset, length);
    for k := 0 to |sub.ns|
      invariant Wrote(ctx, was, out')
      invariant target == out' + Window(NsidBytes(Members(sub, grp, k)) + after, offset', length')
    {
      if sub.ns[k] != Some(grp) {
        continue;
      }
      ghost var rest := NsidBytes(Members(sub, grp, k + 1)) + after;
      MemberBytes(sub, grp, k, after);
      offset', length', out' := EmitChunk(ctx, was, out', ToLe(k + 1, NSID_SIZE), rest, offset', length');
      if length' == 0 {
        WindowEmpty(rest, offset');
        WindowEmpty(after, offset');
        return;
      }
    }
    assert NsidBytes(Members(sub, grp, |sub.ns|)) + after == after;
  }

  /** One reported group: its descriptor, then its NSIDs unless the window is full. */
  method EmitGroup(ctx: CopyCtx, ghost was: seq<Byte>, ghost out: seq<Byte>, sub: Subsystem, g: nat,
                   offset: nat, length: nat)
    returns (offset': nat, length': nat, ghost out': seq<Byte>)
    requires Valid(sub) && g < |sub.ns| && sub.anaGroup[g] != 0 && Wrote(ctx, was, out)
    requires |out + Window(GroupsBytes(GroupsFrom(sub, g)), offset, length)| <= |was|
    modifies ctx`curIovIdx, ctx`curIovOffset, ctx.iovs
    ensures Wrote(ctx, was, out')
    ensures out + Window(GroupsBytes(GroupsFrom(sub, g)), offset, length)
         == out' + Window(GroupsBytes(GroupsFrom(sub, g + 1)), offset', length')
  {
    ghost var after := GroupsBytes(GroupsFrom(sub, g + 1));
    ghost var members := NsidBytes(Members(sub, g + 1, 0)) + after;
    var desc := DescBytes(g + 1, sub.anaGroup[g], GetAnaState(sub, g + 1));
    assert GroupsBytes(GroupsFrom(sub, g)) == desc + members;
    offset', length', out' := EmitChunk(ctx, was, out, desc, members, offset, length);
    if length' == 0 {
      WindowEmpty(members, offset');
      WindowEmpty(after, offset');
      return;
    }
    offset', length', out' := EmitMembers(ctx, was, out', sub, g + 1, after, offset', length');
  }

  /** All reported groups: the outer loop of the printer. */
  method EmitGroups(ctx: CopyCtx, ghost was: seq<Byte>, ghost out: seq<Byte>, sub: Subsystem, offset0: nat, length0: nat)
    requires Valid(sub) && Wrote(ctx, was, out)
    requires |out + Window(GroupsBytes(Groups(sub)), offset0, length0)| <= |was|
    modifies ctx`curIovIdx, ctx`curIovOffset, ctx.iovs
    ensures Wrote(ctx, was, out + Window(GroupsBytes(Groups(sub)), offset0, length0))
  {
    ghost var target, out' := out + Window(GroupsBytes(Groups(sub)), offset0, length0), out;
    var offset, length := offset0, length0;
    for g := 0 to |sub.ns|
      invariant Wrote(ctx, was, out')
      invariant target == out' + Window(GroupsBytes(GroupsFrom(sub, g)), offset, length)
    {
      if sub.anaGroup[g] == 0 {
        continue;
      }
      offset, length, out' := EmitGroup(ctx, was, out', sub, g, offset, length);
      if length == 0 {
        WindowEmpty(GroupsBytes(GroupsFrom(sub, g + 1)), offset);
        assert target == out';
        return;
      }
    }
    assert target == out';
  }

  /** `nvmf_get_ana_log_page`: the vectors receive exactly the requested window of the
      page, from their first byte on; all bytes after it are left as they were. */
  method GetAnaLogPage(sub: Subsystem, iovs: seq<array<Byte>>, offset: nat, length: nat)
    requires Valid(sub) && Distinct(iovs)
    requires |Window(AnaLogPage(sub), offset, length)| <= |Flat(iovs)|
    modifies iovs
    ensures |Window(AnaLogPage(sub), offset, length)| <= |old(Flat(iovs))|
    ensures Flat(iovs) == WriteAt(old(Flat(iovs)), 0, Window(AnaLogPage(sub), offset, length))
  {
    ghost var was := Flat(iovs);
    var ctx := new CopyCtx(iovs);
    if length == 0 {
      WindowEmpty(AnaLogPage(sub), offset);
      return;
    }
    var numGroups := CountGroups(sub);
    var offset', length';
    ghost var out;
    ghost var groups := GroupsBytes(Groups(sub));
    assert [] + Window(AnaLogPage(sub), offset, length) == Window(AnaLogPage(sub), offset, length);
    offset', length', out := EmitChunk(ctx, was, [], HeaderBytes(numGroups), groups, offset, length);
    if length' == 0 {
      WindowEmpty(groups, offset');
      assert out == Window(AnaLogPage(sub), offset, length);
      return;
    }
    EmitGroups(ctx, was, out, sub, offset', length');
  }

  // A page read window by window.

  /** The test that `nvmf_ctrlr_get_log_page` makes, outside the discovery subsystem. */
  predicate Served(offset: nat, length: nat) {
    offset <= length
  }

  /** What a host that reads on in windows of `n` bytes gets, if every read is served. */
  function ReadByWindows(page: seq<Byte>, from: nat, n: nat): Option<seq<Byte>>
    requires n > 0
    decreases if from < |page| then |page| - from else 0
  {
    if from >= |page| then Some([])
    else if !Served(from, n) then None
    else
      var rest := ReadByWindows(page, from + n, n);
      if rest.None? then None else Some(Window(page, from, n) + rest.value)
  }

  /** Windows of `n` bytes concatenate to the whole page if and only if it is no longer than
      two of them: a third one starts at an offset beyond its length and is refused. */
  lemma {:induction false} WindowsReadWholePageIff(page: seq<Byte>, n: nat)
    requires n > 0
    ensures ReadByWindows(page, 0, n) == (if |page| <= 2 * n then Some(page) else None)
  {
    if 0 < |page| {
      WindowsConcatenate(page, 0, n, n);
      if |page| <= n {
        WindowAll(page, n);
        assert page + [] == page;
      } else if |page| <= 2 * n {
        WindowAll(page, n + n);
        assert ReadByWindows(page, n + n, n) == Some([]);
        assert Window(page, n, n) + [] == Window(page, n, n);
        assert ReadByWindows(page, n, n) == Some(Window(page, n, n));
      } else {
        assert ReadByWindows(page, n + n, n) == None;
        assert ReadByWindows(page, n, n) == None;
      }
    }
  }
}
