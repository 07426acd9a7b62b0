/** The host side of the ANA log: the page parser with its two callbacks and the state it
    gives each namespace (nvme/bdev_nvme.c:3221-3316, 4103-4148), and the round trip with
    the page the target prints. */
module AnaHost {
  import opened Scatter
  import opened AnaPage
  import opened AnaTarget

  const EINVAL: int := 22

  datatype NsAna = NsAna(groupId: nat, state: AnaState, updating: bool, transitionTimedOut: bool, timerArmed: bool)

  /** `_nvme_ns_set_ana_state`: an accessible state ends the transition, an inaccessible
      or changing one starts its timer unless it runs, any other leaves the timer alone. */
  function SetAnaState(ns: NsAna, id: nat, state: AnaState): (r: NsAna)
    ensures r.groupId == id && r.state == state && !r.updating
  {
    var ns' := ns.(groupId := id, state := state, updating := false);
    if state == OPTIMIZED || state == NON_OPTIMIZED then ns'.(transitionTimedOut := false, timerArmed := false)
    else if state == INACCESSIBLE || state == CHANGE then ns'.(timerArmed := true)
    else ns'
  }

  // What a whole page does to a table of namespaces.

  function ApplyNsids(m: map<nat, NsAna>, id: nat, state: AnaState, nsids: seq<nat>): (m': map<nat, NsAna>)
    ensures m'.Keys == m.Keys
  {
    if nsids == [] then m
    else if nsids[0] == 0 || nsids[0] !in m then ApplyNsids(m, id, state, nsids[1..])
    else ApplyNsids(m[nsids[0] := SetAnaState(m[nsids[0]], id, state)], id, state, nsids[1..])
  }

  function ApplyGroups(m: map<nat, NsAna>, gs: seq<Group>): (m': map<nat, NsAna>)
    ensures m'.Keys == m.Keys
  {
    if gs == [] then m else ApplyGroups(ApplyNsids(m, gs[0].id, gs[0].state, gs[0].nsids), gs[1..])
  }

  /** The effect of the early-exit callback: the first group that lists the namespace. */
  function ApplyFirst(ns: NsAna, nsid: nat, gs: seq<Group>): NsAna {
    if gs == [] then ns
    else if nsid in gs[0].nsids then SetAnaState(ns, gs[0].id, gs[0].state)
    else ApplyFirst(ns, nsid, gs[1..])
  }

  // The parser.

  datatype Callback = SetAll | SetOne(nsid: nat)

  /** What walking the groups `gs` with callback `cb` does to the table. */
  function Applied(cb: Callback, m: map<nat, NsAna>, gs: seq<Group>): map<nat, NsAna>
    requires cb.SetOne? ==> cb.nsid in m
  {
    match cb
    case SetAll => ApplyGroups(m, gs)
    case SetOne(nsid) => m[nsid := ApplyFirst(m[nsid], nsid, gs)]
  }

  class NvmeCtrlr {
    var namespaces: map<nat, NsAna>
    var anaLogPage: array?<Byte>
    const copiedAnaDesc: array<Byte>

    constructor (namespaces: map<nat, NsAna>, page: array?<Byte>, copied: array<Byte>)
      ensures this.namespaces == namespaces && anaLogPage == page && copiedAnaDesc == copied
    {
      this.namespaces, anaLogPage, copiedAnaDesc := namespaces, page, copied;
    }

    /** `nvme_ctrlr_set_ana_states` on the copied descriptor. */
    method SetAnaStates(ghost g: Group) returns (rc: int)
      requires copiedAnaDesc.Length >= DESC_SIZE && DescSize(copiedAnaDesc[..]) <= copiedAnaDesc.Length
      requires g == DecodeGroup(copiedAnaDesc[..])
      modifies `namespaces
      ensures rc == 0 && namespaces == ApplyNsids(old(namespaces), g.id, g.state, g.nsids)
    {
      ghost var all := ApplyNsids(namespaces, g.id, g.state, g.nsids);
      var desc := copiedAnaDesc[..];
      var n := DescCount(desc);
      for i := 0 to n
        invariant all == ApplyNsids(namespaces, g.id, g.state, DescNsids(desc, i, n - i))
      {
        var nsid := DescNsid(desc, i);
        if nsid == 0 || nsid !in namespaces {
          continue;
        }
        namespaces := namespaces[nsid := SetAnaState(namespaces[nsid], DescId(desc), DescState(desc))];
      }
      return 0;
    }

    /** `nvme_ns_set_ana_state`: stops the walk once its namespace is found. */
    method SetAnaStateOf(nsid: nat, ghost g: Group) returns (rc: int)
      requires copiedAnaDesc.Length >= DESC_SIZE && DescSize(copiedAnaDesc[..]) <= copiedAnaDesc.Length
      requires g == DecodeGroup(copiedAnaDesc[..]) && nsid in namespaces
      modifies `namespaces
      ensures if nsid in g.nsids
              then rc == 1 && namespaces == old(namespaces)[nsid := SetAnaState(old(namespaces)[nsid], g.id, g.state)]
              else rc == 0 && namespaces == old(namespaces)
    {
      var desc := copiedAnaDesc[..];
      var n := DescCount(desc);
      for i := 0 to n
        invariant nsid in g.nsids <==> nsid in DescNsids(desc, i, n - i)
      {
        if DescNsid(desc, i) != nsid {
          continue;
        }
        namespaces := namespaces[nsid := SetAnaState(namespaces[nsid], DescId(desc), DescState(desc))];
        return 1;
      }
      return 0;
    }

    /** One callback on the copied descriptor: either it stops the walk with the table
        final, or the groups after `g` still have to be applied. */
    method Invoke(cb: Callback, ghost g: Group, ghost rest: seq<Group>) returns (rc: int)
      requires copiedAnaDesc.Length >= DESC_SIZE && DescSize(copiedAnaDesc[..]) <= copiedAnaDesc.Length
      requires g == DecodeGroup(copiedAnaDesc[..]) && (cb.SetOne? ==> cb.nsid in namespaces)
      modifies `namespaces
      ensures namespaces.Keys == old(namespaces).Keys && (cb.SetAll? ==> rc == 0)
      ensures Applied(cb, old(namespaces), [g] + rest) == if rc != 0 then namespaces else Applied(cb, namespaces, rest)
    {
      match cb {
        case SetAll => rc := SetAnaStates(g);
        case SetOne(nsid) => rc := SetAnaStateOf(nsid, g);
      }
    }

    /** The `memcpy` of one round: the rest of the page goes to the aligned buffer. */
    method CopyDesc(page: array<Byte>, origDesc: nat, copyLen: nat, ghost rest: seq<Byte>)
      requires page != copiedAnaDesc && copiedAnaDesc.Length == page.Length && origDesc + copyLen == page.Length
      requires page[origDesc..] == rest && |rest| >= DESC_SIZE && DescSize(rest) <= |rest|
      modifies copiedAnaDesc
      ensures page[origDesc..] == rest
      ensures DescSize(copiedAnaDesc[..]) == DescSize(rest) && DecodeGroup(copiedAnaDesc[..]) == DecodeGroup(rest)
    {
      forall k | 0 <= k < copyLen {
        copiedAnaDesc[k] := page[origDesc + k];
      }
      assert copiedAnaDesc[..][..|rest|] == rest;
      DecodePrefix(rest, copiedAnaDesc[..]);
    }

    /** The walk over `numDesc` descriptors: every one from `origDesc` on is copied out
        and handed to the callback until one stops it. */
    method WalkDescriptors(cb: Callback, page: array<Byte>, numDesc: nat) returns (rc: int)
      requires page != copiedAnaDesc && copiedAnaDesc.Length == page.Length >= HEADER_SIZE
      requires Fits(page[HEADER_SIZE..], numDesc) && (cb.SetOne? ==> cb.nsid in namespaces)
      modifies `namespaces, copiedAnaDesc
      ensures cb.SetAll? ==> rc == 0
      ensures namespaces == Applied(cb, old(namespaces), DecodeGroups(old(page[HEADER_SIZE..]), numDesc))
    {
      var origDesc, copyLen := HEADER_SIZE, page.Length - HEADER_SIZE;
      ghost var rest := page[HEADER_SIZE..];
      ghost var all := Applied(cb, namespaces, DecodeGroups(rest, numDesc));
      rc := 0;
      for i := 0 to numDesc
        invariant HEADER_SIZE <= origDesc && copyLen == |rest| && origDesc + copyLen == page.Length
        invariant page[origDesc..] == rest && (cb.SetOne? ==> cb.nsid in namespaces)
        invariant rc == 0 && Fits(rest, numDesc - i)
        invariant all == Applied(cb, namespaces, DecodeGroups(rest, numDesc - i))
      {
        CopyDesc(page, origDesc, copyLen, rest);
        var descSize := DescSize(copiedAnaDesc[..]);
        ghost var next := rest[descSize..];
        rc := Invoke(cb, DecodeGroup(rest), DecodeGroups(next, numDesc - i - 1));
        if rc != 0 {
          return;
        }
        origDesc := origDesc + descSize;
        copyLen := copyLen - descSize;
        rest := next;
      }
    }

    /** `bdev_nvme_parse_ana_log_page`. */
    method ParseAnaLogPage(cb: Callback) returns (rc: int)
      requires anaLogPage != null ==>
        anaLogPage != copiedAnaDesc && copiedAnaDesc.Length == anaLogPage.Length && PageFits(anaLogPage[..])
      requires cb.SetOne? ==> cb.nsid in namespaces
      modifies `namespaces, copiedAnaDesc
      ensures anaLogPage == null ==> rc == -EINVAL && namespaces == old(namespaces)
      ensures anaLogPage != null && cb.SetAll? ==> rc == 0
      ensures anaLogPage != null ==> namespaces == Applied(cb, old(namespaces), DecodePage(old(anaLogPage[..])))
    {
      if anaLogPage == null {
        return -EINVAL;
      }
      assert anaLogPage[HEADER_SIZE..] == anaLogPage[..][HEADER_SIZE..];
      rc := WalkDescriptors(cb, anaLogPage, NumGroups(anaLogPage[..]));
    }
  }

  /** A descriptor decodes the same from any buffer that begins with its bytes. */
  lemma {:induction false} DecodePrefix(rest: seq<Byte>, copied: seq<Byte>)
    requires |rest| >= DESC_SIZE && DescSize(rest) <= |rest| <= |copied| && copied[..|rest|] == rest
    ensures DescSize(copied) == DescSize(rest) && DecodeGroup(copied) == DecodeGroup(rest)
  {
    assert copied[0..4] == rest[0..4] && copied[4..8] == rest[4..8];
    NsidsPrefix(rest, copied, 0, DescCount(rest));
  }

  lemma {:induction false} NsidsPrefix(rest: seq<Byte>, copied: seq<Byte>, from: nat, n: nat)
    requires DESC_SIZE + NSID_SIZE * (from + n) <= |rest| <= |copied| && copied[..|rest|] == rest
    ensures DescNsids(copied, from, n) == DescNsids(rest, from, n)
    decreases n
  {
    if n > 0 {
      var a, b := DESC_SIZE + NSID_SIZE * from, DESC_SIZE + NSID_SIZE * (from + 1);
      assert copied[a..b] == copied[..|rest|][a..b] == rest[a..b];
      NsidsPrefix(rest, copied, from + 1, n - 1);
    }
  }
}
