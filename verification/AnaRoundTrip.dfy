/** What the target prints and what the host concludes from it (nvmf/ctrlr.c:2253-2353,
    nvme/bdev_nvme.c:3221-3316, 4103-4148, 4583-4607). */
module AnaRoundTrip {
  import opened Options
  import opened Scatter
  import opened AnaPage
  import opened AnaTarget
  import opened AnaHost

  // The two callbacks, namespace by namespace.

  ghost predicate Listed(nsid: nat, gs: seq<Group>) {
    exists j :: 0 <= j < |gs| && nsid in gs[j].nsids
  }

  ghost predicate ListedOnce(nsid: nat, gs: seq<Group>) {
    forall i, j :: 0 <= i < j < |gs| ==> !(nsid in gs[i].nsids && nsid in gs[j].nsids)
  }

  lemma {:induction false} ApplyNsidsAt(m: map<nat, NsAna>, id: nat, state: AnaState, nsids: seq<nat>, nsid: nat)
    requires nsid in m && nsid != 0
    ensures ApplyNsids(m, id, state, nsids)[nsid] == if nsid in nsids then SetAnaState(m[nsid], id, state) else m[nsid]
  {
    if nsids != [] {
      var m' := if nsids[0] == 0 || nsids[0] !in m then m else m[nsids[0] := SetAnaState(m[nsids[0]], id, state)];
      ApplyNsidsAt(m', id, state, nsids[1..], nsid);
    }
  }

  lemma {:induction false} ApplyFirstUnlisted(ns: NsAna, nsid: nat, gs: seq<Group>)
    requires !Listed(nsid, gs)
    ensures ApplyFirst(ns, nsid, gs) == ns
  {
    if gs != [] {
      assert nsid !in gs[0].nsids;
      forall j | 0 <= j < |gs[1..]| ensures nsid !in gs[1..][j].nsids {
        assert gs[1..][j] == gs[j + 1];
      }
      ApplyFirstUnlisted(ns, nsid, gs[1..]);
    }
  }

  /** The early-exit parse of one namespace agrees with the full parse, on every page
      that lists the namespace in at most one group. */
  lemma {:induction false} SingleAgreesWithFull(m: map<nat, NsAna>, gs: seq<Group>, nsid: nat)
    requires nsid in m && nsid != 0 && ListedOnce(nsid, gs)
    ensures ApplyGroups(m, gs)[nsid] == ApplyFirst(m[nsid], nsid, gs)
  {
    if gs != [] {
      var m' := ApplyNsids(m, gs[0].id, gs[0].state, gs[0].nsids);
      ApplyNsidsAt(m, gs[0].id, gs[0].state, gs[0].nsids, nsid);
      SingleAgreesWithFull(m', gs[1..], nsid);
      if nsid in gs[0].nsids {
        forall j | 0 <= j < |gs[1..]| ensures nsid !in gs[1..][j].nsids {
          assert gs[1..][j] == gs[j + 1];
        }
        ApplyFirstUnlisted(m'[nsid], nsid, gs[1..]);
      }
    }
  }

  lemma {:induction false} ApplyFirstAt(ns: NsAna, nsid: nat, gs: seq<Group>, j: nat)
    requires j < |gs| && nsid in gs[j].nsids && ListedOnce(nsid, gs)
    ensures ApplyFirst(ns, nsid, gs) == SetAnaState(ns, gs[j].id, gs[j].state)
  {
    if j > 0 {
      assert nsid !in gs[0].nsids;
      ApplyFirstAt(ns, nsid, gs[1..], j - 1);
    }
  }

  // Which groups a subsystem reports, and where.

  lemma {:induction false} MembersHave(sub: Subsystem, grp: nat, from: nat, nsid: nat)
    requires from <= |sub.ns| < 0x1_0000_0000
    ensures nsid in Members(sub, grp, from) <==> from < nsid <= |sub.ns| && sub.ns[nsid - 1] == Some(grp)
    decreases |sub.ns| - from
  {
    if from < |sub.ns| {
      MembersHave(sub, grp, from + 1, nsid);
    }
  }

  /** How many reported groups come before group `grp` (counting from `from`). */
  function Rank(sub: Subsystem, from: nat, grp: nat): nat
    requires |sub.ns| == |sub.anaGroup| && from < grp <= |sub.ns|
    decreases grp - from
  {
    if from + 1 == grp then 0 else (if sub.anaGroup[from] == 0 then 0 else 1) + Rank(sub, from + 1, grp)
  }

  lemma {:induction false} RankedAt(sub: Subsystem, from: nat, grp: nat)
    requires Valid(sub) && from < grp <= |sub.ns| && sub.anaGroup[grp - 1] > 0
    ensures Rank(sub, from, grp) < |GroupsFrom(sub, from)|
    ensures GroupsFrom(sub, from)[Rank(sub, from, grp)]
         == Group(grp, sub.anaGroup[grp - 1], GetAnaState(sub, grp), Members(sub, grp, 0))
    decreases grp - from
  {
    if from + 1 < grp {
      RankedAt(sub, from + 1, grp);
    }
  }

  /** Every reported entry is some group's, at that group's rank. */
  lemma {:induction false} GroupAt(sub: Subsystem, from: nat, j: nat) returns (grp: nat)
    requires Valid(sub) && from <= |sub.ns| && j < |GroupsFrom(sub, from)|
    ensures from < grp <= |sub.ns| && sub.anaGroup[grp - 1] > 0 && Rank(sub, from, grp) == j
    decreases |sub.ns| - from
  {
    if sub.anaGroup[from] == 0 {
      grp := GroupAt(sub, from + 1, j);
    } else if j == 0 {
      grp := from + 1;
    } else {
      grp := GroupAt(sub, from + 1, j - 1);
    }
  }

  /** A namespace is listed by entry `j` exactly if `j` is the rank of its own group. */
  lemma {:induction false} ListedAt(sub: Subsystem, nsid: nat, j: nat)
    requires Valid(sub) && CountsMatch(sub) && j < |Groups(sub)|
    ensures nsid in Groups(sub)[j].nsids <==>
            1 <= nsid <= |sub.ns| && sub.ns[nsid - 1].Some? && Rank(sub, 0, sub.ns[nsid - 1].value) == j
  {
    var grp := GroupAt(sub, 0, j);
    RankedAt(sub, 0, grp);
    MembersHave(sub, grp, 0, nsid);
    if 1 <= nsid <= |sub.ns| && sub.ns[nsid - 1].Some? {
      var own := sub.ns[nsid - 1].value;
      MembersHave(sub, own, 0, nsid);
      assert sub.anaGroup[own - 1] > 0;
      RankedAt(sub, 0, own);
    }
  }

  lemma {:induction false} RankOfNamespace(sub: Subsystem, nsid: nat)
    requires Valid(sub) && CountsMatch(sub) && 1 <= nsid <= |sub.ns| && sub.ns[nsid - 1].Some?
    ensures Rank(sub, 0, sub.ns[nsid - 1].value) < |Groups(sub)|
  {
    var own := sub.ns[nsid - 1].value;
    MembersHave(sub, own, 0, nsid);
    assert sub.anaGroup[own - 1] > 0;
    RankedAt(sub, 0, own);
  }

  // The round trip.

  /** What the host should end up with for one namespace. */
  function Expected(sub: Subsystem, ns: NsAna, nsid: nat): NsAna
    requires Valid(sub)
  {
    if 1 <= nsid <= |sub.ns| && sub.ns[nsid - 1].Some?
    then SetAnaState(ns, sub.ns[nsid - 1].value, GetAnaState(sub, sub.ns[nsid - 1].value))
    else ns
  }

  /** How `now` follows from `was` for one namespace, in the listener's own terms: the
      namespace's group with that listener's state for it, optimized without ANA reporting
      and inaccessible without a listener. */
  ghost predicate SeesOwnGroup(sub: Subsystem, nsid: nat, was: NsAna, now: NsAna)
    requires Valid(sub) && 1 <= nsid <= |sub.ns| && sub.ns[nsid - 1].Some?
  {
    var own := sub.ns[nsid - 1].value;
    && now.groupId == own && !now.updating
    && (!sub.anaReporting ==> now.state == OPTIMIZED)
    && (sub.anaReporting && sub.listenerStates.None? ==> now.state == INACCESSIBLE)
    && (sub.anaReporting && sub.listenerStates.Some? ==> now.state == sub.listenerStates.value[own - 1])
    && (now.timerArmed <==> now.state == INACCESSIBLE || now.state == CHANGE
                            || (was.timerArmed && now.state != OPTIMIZED && now.state != NON_OPTIMIZED))
    && (now.transitionTimedOut <==> was.transitionTimedOut && now.state != OPTIMIZED && now.state != NON_OPTIMIZED)
  }

  /** What the parser decodes from a printed page, whatever follows it in the buffer. */
  lemma {:induction false} DecodePrinted(sub: Subsystem, tail: seq<Byte>)
    requires Valid(sub) && CountsMatch(sub)
    ensures PageFits(AnaLogPage(sub)) && PageFits(AnaLogPage(sub) + tail)
    ensures DecodePage(AnaLogPage(sub)) == DecodePage(AnaLogPage(sub) + tail)
         == Groups(sub)[..|Groups(sub)| % 0x1_0000]
  {
    GroupsExact(sub, 0);
    PageRoundTrip(Groups(sub), tail);
  }

  /** For every subsystem and every stale tail of the host's buffer, parsing the printed
      page gives each namespace the host knows its own group's id and state exactly when
      that group's rank is below the 16-bit group counter, touches no other namespace,
      and the early-exit parse of a namespace gives the same. */
  lemma {:induction false} HostSeesRankedGroups(sub: Subsystem, tail: seq<Byte>, m: map<nat, NsAna>, nsid: nat)
    requires Valid(sub) && CountsMatch(sub) && nsid in m && nsid != 0
    ensures PageFits(AnaLogPage(sub)) && PageFits(AnaLogPage(sub) + tail)
    ensures var gs := DecodePage(AnaLogPage(sub) + tail);
            var reported := 1 <= nsid <= |sub.ns| && sub.ns[nsid - 1].Some?
                            && Rank(sub, 0, sub.ns[nsid - 1].value) < |Groups(sub)| % 0x1_0000;
            && ApplyGroups(m, gs)[nsid] == (if reported then Expected(sub, m[nsid], nsid) else m[nsid])
            && (reported ==> SeesOwnGroup(sub, nsid, m[nsid], ApplyGroups(m, gs)[nsid]))
            && ApplyFirst(m[nsid], nsid, gs) == ApplyGroups(m, gs)[nsid]
            && (Listed(nsid, gs) <==> reported)
  {
    hide AnaLogPage;
    DecodePrinted(sub, tail);
    var k := |Groups(sub)| % 0x1_0000;
    var gs := Groups(sub)[..k];
    forall j | 0 <= j < k
      ensures nsid in gs[j].nsids <==>
              1 <= nsid <= |sub.ns| && sub.ns[nsid - 1].Some? && Rank(sub, 0, sub.ns[nsid - 1].value) == j
    {
      ListedAt(sub, nsid, j);
    }
    SingleAgreesWithFull(m, gs, nsid);
    if 1 <= nsid <= |sub.ns| && sub.ns[nsid - 1].Some? && Rank(sub, 0, sub.ns[nsid - 1].value) < k {
      var own := sub.ns[nsid - 1].value;
      RankOfNamespace(sub, nsid);
      MembersHave(sub, own, 0, nsid);
      RankedAt(sub, 0, own);
      ApplyFirstAt(m[nsid], nsid, gs, Rank(sub, 0, own));
    } else {
      ApplyFirstUnlisted(m[nsid], nsid, gs);
    }
  }

  ghost predicate AllListed(sub: Subsystem, gs: seq<Group>) {
    forall nsid :: 1 <= nsid <= |sub.ns| && sub.ns[nsid - 1].Some? ==> Listed(nsid, gs)
  }

  lemma {:induction false} PrefixListsAllIffWhole(sub: Subsystem, k: nat)
    requires Valid(sub) && CountsMatch(sub) && k <= |Groups(sub)|
    ensures AllListed(sub, Groups(sub)[..k]) <==> k == |Groups(sub)|
  {
    var gs := Groups(sub)[..k];
    if k == |Groups(sub)| {
      forall nsid | 1 <= nsid <= |sub.ns| && sub.ns[nsid - 1].Some?
        ensures Listed(nsid, gs)
      {
        var j := Rank(sub, 0, sub.ns[nsid - 1].value);
        RankOfNamespace(sub, nsid);
        ListedAt(sub, nsid, j);
        assert nsid in gs[j].nsids;
      }
    } else {
      var nsid := MemberOfGroup(sub, k);
      ListedAt(sub, nsid, k);
      forall j | 0 <= j < k ensures nsid !in gs[j].nsids {
        ListedAt(sub, nsid, j);
      }
      assert !Listed(nsid, gs);
    }
  }

  /** The page delivers every active namespace's state if and only if fewer than 2^16
      groups are reported: past that the header's counter wraps. */
  lemma {:induction false} CompleteIffCounterFits(sub: Subsystem)
    requires Valid(sub) && CountsMatch(sub)
    ensures PageFits(AnaLogPage(sub))
    ensures AllListed(sub, DecodePage(AnaLogPage(sub))) <==> |Groups(sub)| < 0x1_0000
  {
    DecodePrinted(sub, []);
    hide DecodePage, AnaLogPage, Groups, AllListed;
    PrefixListsAllIffWhole(sub, |Groups(sub)| % 0x1_0000);
  }

  lemma {:induction false} MemberOfGroup(sub: Subsystem, j: nat) returns (nsid: nat)
    requires Valid(sub) && CountsMatch(sub) && j < |Groups(sub)|
    ensures 1 <= nsid <= |sub.ns| && sub.ns[nsid - 1].Some? && nsid in Groups(sub)[j].nsids
  {
    var grp := GroupAt(sub, 0, j);
    RankedAt(sub, 0, grp);
    nsid := Members(sub, grp, 0)[0];
    MembersHave(sub, grp, 0, nsid);
  }

  // Sizes.

  function ActiveCount(sub: Subsystem, from: nat): (n: nat)
    requires from <= |sub.ns|
    ensures n <= |sub.ns| - from
    decreases |sub.ns| - from
  {
    if from == |sub.ns| then 0 else (if sub.ns[from].Some? then 1 else 0) + ActiveCount(sub, from + 1)
  }

  /** `nvme_ctrlr_get_ana_log_page_size`, from what Identify reports for the subsystem. */
  function HostReadSize(sub: Subsystem): nat {
    HEADER_SIZE + |sub.ns| * DESC_SIZE + ActiveCount(sub, 0) * NSID_SIZE
  }

  /** `max_ana_log_page_size` as allocated by `nvme_ctrlr_init_ana_log_page`. */
  function HostBufferSize(sub: Subsystem): nat {
    HEADER_SIZE + |sub.ns| * DESC_SIZE + |sub.ns| * NSID_SIZE
  }

  /** Members of groups above `g`, counting NSIDs above `from`. */
  function MemberTotal(sub: Subsystem, g: nat, from: nat): nat
    requires g <= |sub.ns| < 0x1_0000_0000 && from <= |sub.ns|
    decreases |sub.ns| - g
  {
    if g == |sub.ns| then 0 else |Members(sub, g + 1, from)| + MemberTotal(sub, g + 1, from)
  }

  lemma {:induction false} MemberTotalStep(sub: Subsystem, g: nat, from: nat)
    requires g <= |sub.ns| < 0x1_0000_0000 && from < |sub.ns|
    ensures MemberTotal(sub, g, from) == MemberTotal(sub, g, from + 1)
              + (if sub.ns[from].Some? && g < sub.ns[from].value <= |sub.ns| then 1 else 0)
    decreases |sub.ns| - g
  {
    if g < |sub.ns| {
      MemberTotalStep(sub, g + 1, from);
    }
  }

  lemma {:induction false} MemberTotalIsActive(sub: Subsystem, from: nat)
    requires Valid(sub) && from <= |sub.ns|
    ensures MemberTotal(sub, 0, from) == ActiveCount(sub, from)
    decreases |sub.ns| - from
  {
    if from < |sub.ns| {
      MemberTotalStep(sub, 0, from);
      MemberTotalIsActive(sub, from + 1);
    } else {
      NoMembersAtEnd(sub, 0);
    }
  }

  lemma {:induction false} NoMembersAtEnd(sub: Subsystem, g: nat)
    requires g <= |sub.ns| < 0x1_0000_0000
    ensures MemberTotal(sub, g, |sub.ns|) == 0
    decreases |sub.ns| - g
  {
    if g < |sub.ns| {
      NoMembersAtEnd(sub, g + 1);
    }
  }

  lemma {:induction false} GroupsBytesSize(sub: Subsystem, from: nat)
    requires Valid(sub) && from <= |sub.ns|
    ensures |GroupsBytes(GroupsFrom(sub, from))| <= DESC_SIZE * (|sub.ns| - from) + NSID_SIZE * MemberTotal(sub, from, 0)
    decreases |sub.ns| - from
  {
    if from < |sub.ns| {
      GroupsBytesSize(sub, from + 1);
    }
  }

  /** The page never exceeds the size the host reads, nor that the buffer it allocated. */
  lemma {:induction false} PageFitsHostSizes(sub: Subsystem)
    requires Valid(sub)
    ensures |AnaLogPage(sub)| <= HostReadSize(sub) <= HostBufferSize(sub)
  {
    GroupsBytesSize(sub, 0);
    MemberTotalIsActive(sub, 0);
  }

  /** One log page read into a plain buffer: the page, then what the buffer held there. */
  method ReadPage(sub: Subsystem, page: array<Byte>, size: nat)
    requires Valid(sub) && |AnaLogPage(sub)| <= size <= page.Length
    modifies page
    ensures page[..] == AnaLogPage(sub) + old(page[..])[|AnaLogPage(sub)|..]
  {
    ghost var printed := AnaLogPage(sub);
    WindowAll(printed, size);
    FlattenOne(page[..]);
    assert Contents([page]) == [page[..]];
    WriteAtIs(page[..], 0, printed);
    GetAnaLogPage(sub, [page], 0, size);
    FlattenOne(page[..]);
    assert Contents([page]) == [page[..]];
  }

  /** The host reads the page into its buffer and parses it: every namespace it knows gets
      its own group's id and state, whatever the buffer held before. */
  method ReadAndParse(sub: Subsystem, host: NvmeCtrlr, page: array<Byte>) returns (rc: int)
    requires Valid(sub) && CountsMatch(sub) && |Groups(sub)| < 0x1_0000
    requires host.anaLogPage == page != host.copiedAnaDesc
    requires page.Length == host.copiedAnaDesc.Length == HostBufferSize(sub)
    modifies host`namespaces, host.copiedAnaDesc, page
    ensures rc == 0 && host.namespaces.Keys == old(host.namespaces).Keys
    ensures forall nsid :: nsid in old(host.namespaces) && nsid != 0 ==>
              host.namespaces[nsid] == Expected(sub, old(host.namespaces)[nsid], nsid)
    ensures forall nsid :: nsid in old(host.namespaces) && 1 <= nsid <= |sub.ns| && sub.ns[nsid - 1].Some? ==>
              SeesOwnGroup(sub, nsid, old(host.namespaces)[nsid], host.namespaces[nsid])
    ensures forall nsid :: nsid in old(host.namespaces) && nsid > |sub.ns| ==>
              host.namespaces[nsid] == old(host.namespaces)[nsid]
    ensures forall nsid :: nsid in old(host.namespaces) && 1 <= nsid <= |sub.ns| && sub.ns[nsid - 1].None? ==>
              host.namespaces[nsid] == old(host.namespaces)[nsid]
  {
    hide DecodePage, Rank, Groups, AnaLogPage;
    ghost var m, was := host.namespaces, page[..];
    ghost var printed := AnaLogPage(sub);
    PageFitsHostSizes(sub);
    WindowAll(printed, HostReadSize(sub));
    ReadPage(sub, page, HostReadSize(sub));
    ghost var tail := was[|printed|..];
    DecodePrinted(sub, tail);
    forall nsid | nsid in m && nsid != 0
      ensures ApplyGroups(m, DecodePage(page[..]))[nsid] == Expected(sub, m[nsid], nsid)
    {
      HostSeesRankedGroups(sub, tail, m, nsid);
      if 1 <= nsid <= |sub.ns| && sub.ns[nsid - 1].Some? {
        RankOfNamespace(sub, nsid);
      }
    }
    rc := host.ParseAnaLogPage(SetAll);
  }
}
