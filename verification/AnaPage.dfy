/** The ANA log page of section 5.14.1.12 of the NVMe Base Specification 1.4: a 16-byte
    header, then for each reported group a 32-byte descriptor followed by its NSIDs. */
module AnaPage {
  import opened Scatter

  const HEADER_SIZE: nat := 16
  const DESC_SIZE: nat := 32
  const NSID_SIZE: nat := 4

  /** The four-bit ANA state field. */
  type AnaState = s: int | 0 <= s < 16

  const OPTIMIZED: AnaState := 1
  const NON_OPTIMIZED: AnaState := 2
  const INACCESSIBLE: AnaState := 3
  const CHANGE: AnaState := 15

  /** The low `n` bytes of `v`, least significant first. */
  function ToLe(v: nat, n: nat): (r: seq<Byte>)
    ensures |r| == n
  {
    if n == 0 then [] else [v % 256] + ToLe(v / 256, n - 1)
  }

  function FromLe(bytes: seq<Byte>): nat {
    if bytes == [] then 0 else bytes[0] + 256 * FromLe(bytes[1..])
  }

  function Zeros(n: nat): (r: seq<Byte>)
    ensures |r| == n
  {
    seq(n, i => 0)
  }

  lemma {:induction false} Le32RoundTrip(v: nat)
    requires v < 0x1_0000_0000
    ensures FromLe(ToLe(v, 4)) == v
  {
    var b, c, d := v / 256, v / 256 / 256, v / 256 / 256 / 256;
    assert ToLe(d, 1) == [d] && ToLe(c, 2) == [c % 256] + ToLe(d, 1);
    assert ToLe(b, 3) == [b % 256] + ToLe(c, 2);
    assert FromLe([d]) == d;
    assert FromLe(ToLe(c, 2)) == c;
    assert FromLe(ToLe(b, 3)) == b;
  }

  /** A 16-bit field keeps the value modulo 2^16. */
  lemma {:induction false} Le16RoundTrip(v: nat)
    ensures FromLe(ToLe(v, 2)) == v % 0x1_0000
  {
    var b := v / 256;
    assert ToLe(b, 1) == [b % 256] && FromLe([b % 256]) == b % 256;
    assert v % 0x1_0000 == v % 256 + 256 * (b % 256) by { SplitMod(v); }
  }

  lemma SplitMod(v: nat)
    ensures v % 0x1_0000 == v % 256 + 256 * (v / 256 % 256)
  {}

  /** What one descriptor reports. `count` is the descriptor's own NSID count, which the
      target takes from a counter and not from the list. */
  datatype Group = Group(id: nat, count: nat, state: AnaState, nsids: seq<nat>)

  ghost predicate Encodable(g: Group) {
    && g.id < 0x1_0000_0000 && g.count < 0x1_0000_0000
    && forall k :: 0 <= k < |g.nsids| ==> g.nsids[k] < 0x1_0000_0000
  }

  /** Every field fits its width and every descriptor counts its own NSIDs. */
  ghost predicate Exact(gs: seq<Group>) {
    forall i :: 0 <= i < |gs| ==> Encodable(gs[i]) && gs[i].count == |gs[i].nsids|
  }

  function HeaderBytes(numGroups: nat): (r: seq<Byte>)
    ensures |r| == HEADER_SIZE
  {
    Zeros(8) + ToLe(numGroups, 2) + Zeros(6)
  }

  function DescBytes(id: nat, count: nat, state: AnaState): (r: seq<Byte>)
    ensures |r| == DESC_SIZE
  {
    ToLe(id, 4) + ToLe(count, 4) + Zeros(8) + [state] + Zeros(15)
  }

  function NsidBytes(nsids: seq<nat>): (r: seq<Byte>)
    ensures |r| == NSID_SIZE * |nsids|
  {
    if nsids == [] then [] else ToLe(nsids[0], NSID_SIZE) + NsidBytes(nsids[1..])
  }

  function GroupsBytes(gs: seq<Group>): (r: seq<Byte>)
  {
    if gs == [] then []
    else DescBytes(gs[0].id, gs[0].count, gs[0].state) + (NsidBytes(gs[0].nsids) + GroupsBytes(gs[1..]))
  }

  /** The whole log page. */
  function PageBytes(gs: seq<Group>): seq<Byte>
  {
    HeaderBytes(|gs|) + GroupsBytes(gs)
  }

  // Reading a page: fields by their offsets.

  function NumGroups(page: seq<Byte>): nat
    requires |page| >= HEADER_SIZE
  {
    FromLe(page[8..10])
  }

  function DescId(desc: seq<Byte>): nat
    requires |desc| >= DESC_SIZE
  {
    FromLe(desc[0..4])
  }

  function DescCount(desc: seq<Byte>): nat
    requires |desc| >= DESC_SIZE
  {
    FromLe(desc[4..8])
  }

  /** The state is the low nibble of byte 16. */
  function DescState(desc: seq<Byte>): AnaState
    requires |desc| >= DESC_SIZE
  {
    desc[16] % 16
  }

  function DescSize(desc: seq<Byte>): nat
    requires |desc| >= DESC_SIZE
  {
    DESC_SIZE + DescCount(desc) * NSID_SIZE
  }

  function DescNsid(desc: seq<Byte>, i: nat): nat
    requires |desc| >= DESC_SIZE + NSID_SIZE * (i + 1)
  {
    FromLe(desc[DESC_SIZE + NSID_SIZE * i..DESC_SIZE + NSID_SIZE * (i + 1)])
  }

  /** `n` NSIDs of a descriptor, starting with the one at index `from`. */
  function DescNsids(desc: seq<Byte>, from: nat, n: nat): (r: seq<nat>)
    requires |desc| >= DESC_SIZE + NSID_SIZE * (from + n)
    ensures |r| == n
    decreases n
  {
    if n == 0 then [] else [DescNsid(desc, from)] + DescNsids(desc, from + 1, n - 1)
  }

  /** `k` descriptors, each with as many NSIDs as it claims, lie inside `bytes`. */
  ghost predicate Fits(bytes: seq<Byte>, k: nat) {
    k == 0 || (|bytes| >= DESC_SIZE && DescSize(bytes) <= |bytes| && Fits(bytes[DescSize(bytes)..], k - 1))
  }

  function DecodeGroup(desc: seq<Byte>): Group
    requires |desc| >= DESC_SIZE && DescSize(desc) <= |desc|
  {
    Group(DescId(desc), DescCount(desc), DescState(desc), DescNsids(desc, 0, DescCount(desc)))
  }

  ghost function DecodeGroups(bytes: seq<Byte>, k: nat): (gs: seq<Group>)
    requires Fits(bytes, k)
    ensures |gs| == k
    decreases k
  {
    if k == 0 then [] else [DecodeGroup(bytes)] + DecodeGroups(bytes[DescSize(bytes)..], k - 1)
  }

  ghost predicate PageFits(page: seq<Byte>) {
    |page| >= HEADER_SIZE && Fits(page[HEADER_SIZE..], NumGroups(page))
  }

  ghost function DecodePage(page: seq<Byte>): seq<Group>
    requires PageFits(page)
  {
    DecodeGroups(page[HEADER_SIZE..], NumGroups(page))
  }

  // Decoding what was encoded.

  lemma {:induction false} SliceMiddle(a: seq<Byte>, b: seq<Byte>, c: seq<Byte>)
    ensures (a + b + c)[|a|..|a| + |b|] == b
  {}

  lemma {:induction false} NsidsSplit(pre: seq<Byte>, nsids: seq<nat>, tail: seq<Byte>)
    requires nsids != []
    ensures pre + (NsidBytes(nsids) + tail)
         == pre + ToLe(nsids[0], NSID_SIZE) + (NsidBytes(nsids[1..]) + tail)
  {}

  lemma {:induction false} NsidAt(pre: seq<Byte>, field: seq<Byte>, tail: seq<Byte>, from: nat)
    requires |pre| == DESC_SIZE + NSID_SIZE * from && |field| == NSID_SIZE
    ensures DescNsid(pre + field + tail, from) == FromLe(field)
  {
    SliceMiddle(pre, field, tail);
  }

  lemma {:induction false} NsidsRoundTrip(pre: seq<Byte>, nsids: seq<nat>, tail: seq<Byte>, from: nat)
    requires |pre| == DESC_SIZE + NSID_SIZE * from
    requires forall k :: 0 <= k < |nsids| ==> nsids[k] < 0x1_0000_0000
    ensures DescNsids(pre + (NsidBytes(nsids) + tail), from, |nsids|) == nsids
    decreases |nsids|
  {
    hide ToLe, FromLe, DescNsid;
    if nsids != [] {
      var first := ToLe(nsids[0], NSID_SIZE);
      var rest := NsidBytes(nsids[1..]) + tail;
      var all := pre + (NsidBytes(nsids) + tail);
      var next := pre + first;
      assert all == next + rest by { NsidsSplit(pre, nsids, tail); }
      NsidAt(pre, first, rest, from);
      Le32RoundTrip(nsids[0]);
      NsidsRoundTrip(next, nsids[1..], tail, from + 1);
    }
  }

  lemma {:induction false} DescRoundTrip(g: Group, tail: seq<Byte>)
    requires Encodable(g) && g.count == |g.nsids|
    ensures var bytes := DescBytes(g.id, g.count, g.state) + (NsidBytes(g.nsids) + tail);
            DescSize(bytes) == DESC_SIZE + |NsidBytes(g.nsids)| <= |bytes| && DecodeGroup(bytes) == g
  {
    var desc := DescBytes(g.id, g.count, g.state);
    var bytes := desc + (NsidBytes(g.nsids) + tail);
    assert bytes[0..4] == ToLe(g.id, 4);
    assert bytes[4..8] == ToLe(g.count, 4);
    assert bytes[16] == g.state;
    Le32RoundTrip(g.id);
    Le32RoundTrip(g.count);
    NsidsRoundTrip(desc, g.nsids, tail, 0);
  }

  /** The first entry of a non-empty page body decodes to its group; the rest follows it. */
  lemma {:induction false} FirstGroup(gs: seq<Group>, tail: seq<Byte>)
    requires Exact(gs) && gs != []
    ensures var bytes := GroupsBytes(gs) + tail;
            && |bytes| >= DESC_SIZE && DescSize(bytes) <= |bytes| && DecodeGroup(bytes) == gs[0]
            && bytes[DescSize(bytes)..] == GroupsBytes(gs[1..]) + tail
  {
    var g, rest := gs[0], GroupsBytes(gs[1..]) + tail;
    assert GroupsBytes(gs) + tail == DescBytes(g.id, g.count, g.state) + (NsidBytes(g.nsids) + rest);
    DescRoundTrip(g, rest);
  }

  lemma {:induction false} GroupsRoundTrip(gs: seq<Group>, k: nat, tail: seq<Byte>)
    requires Exact(gs) && k <= |gs|
    ensures Fits(GroupsBytes(gs) + tail, k) && DecodeGroups(GroupsBytes(gs) + tail, k) == gs[..k]
    decreases k
  {
    if k > 0 {
      FirstGroup(gs, tail);
      GroupsRoundTrip(gs[1..], k - 1, tail);
      assert gs[..k] == [gs[0]] + gs[1..][..k - 1];
    }
  }

  lemma {:induction false} PageParts(gs: seq<Group>, tail: seq<Byte>)
    ensures |PageBytes(gs) + tail| >= HEADER_SIZE
    ensures (PageBytes(gs) + tail)[HEADER_SIZE..] == GroupsBytes(gs) + tail
    ensures NumGroups(PageBytes(gs) + tail) == |gs| % 0x1_0000
  {
    var header := HeaderBytes(|gs|);
    var page := PageBytes(gs) + tail;
    assert page == header + (GroupsBytes(gs) + tail);
    SliceMiddle(Zeros(8), ToLe(|gs|, 2), Zeros(6));
    assert page[8..10] == header[8..10];
    Le16RoundTrip(|gs|);
  }

  lemma {:induction false} DecodeAfterHeader(page: seq<Byte>, gs: seq<Group>, tail: seq<Byte>)
    requires Exact(gs) && |page| >= HEADER_SIZE
    requires page[HEADER_SIZE..] == GroupsBytes(gs) + tail && NumGroups(page) <= |gs|
    ensures PageFits(page) && DecodePage(page) == gs[..NumGroups(page)]
  {
    GroupsRoundTrip(gs, NumGroups(page), tail);
  }

  /** Decoding a generated page yields exactly its groups as far as the 16-bit group
      counter of the header reaches, never reading past the page. */
  lemma {:induction false} PageRoundTrip(gs: seq<Group>, tail: seq<Byte>)
    requires Exact(gs)
    ensures PageFits(PageBytes(gs)) && PageFits(PageBytes(gs) + tail)
    ensures DecodePage(PageBytes(gs)) == DecodePage(PageBytes(gs) + tail) == gs[..|gs| % 0x1_0000]
  {
    PageParts(gs, tail);
    DecodeAfterHeader(PageBytes(gs) + tail, gs, tail);
    PageParts(gs, []);
    assert PageBytes(gs) + [] == PageBytes(gs);
    DecodeAfterHeader(PageBytes(gs), gs, []);
  }

  // The page byte by byte.

  /** A 32-bit field as it lies in memory, least significant byte first. */
  function Le4(v: nat): (r: seq<Byte>) {
    [v % 256, v / 256 % 256, v / 0x1_0000 % 256, v / 0x100_0000 % 256]
  }

  lemma {:induction false} Le4Is(v: nat)
    ensures ToLe(v, 4) == Le4(v)
  {
    var b, c, d := v / 256, v / 256 / 256, v / 256 / 256 / 256;
    assert c == v / 0x1_0000 && d == v / 0x100_0000;
    assert ToLe(d, 1) == [d % 256] && ToLe(c, 2) == [c % 256] + ToLe(d, 1);
    assert ToLe(b, 3) == [b % 256] + ToLe(c, 2);
  }

  lemma {:induction false} HeaderLayout(n: nat)
    ensures HeaderBytes(n) == [0, 0, 0, 0, 0, 0, 0, 0, n % 256, n / 256 % 256, 0, 0, 0, 0, 0, 0]
  {
    assert ToLe(n, 2) == [n % 256] + ([n / 256 % 256] + ToLe(n / 256 / 256, 0));
  }

  lemma {:induction false} DescLayout(id: nat, count: nat, state: AnaState)
    ensures DescBytes(id, count, state) == Le4(id) + Le4(count) + Zeros(8) + [state] + Zeros(15)
    ensures DescBytes(id, count, state)[16] == state
  {
    Le4Is(id);
    Le4Is(count);
  }

  /** Where entry `j` starts after the header: behind a 32-byte descriptor and 4 bytes a namespace
      for each entry before it. */
  function EntryOffset(gs: seq<Group>, j: nat): nat
    requires j <= |gs|
  {
    if j == 0 then 0 else 32 + 4 * |gs[0].nsids| + EntryOffset(gs[1..], j - 1)
  }

  lemma {:induction false} EntryAt(gs: seq<Group>, j: nat)
    requires j < |gs|
    ensures EntryOffset(gs, j) <= |GroupsBytes(gs)|
    ensures var g := gs[j];
            GroupsBytes(gs)[EntryOffset(gs, j)..]
            == DescBytes(g.id, g.count, g.state) + (NsidBytes(g.nsids) + GroupsBytes(gs[j + 1..]))
  {
    if j > 0 {
      EntryAt(gs[1..], j - 1);
      assert gs[1..][j..] == gs[j + 1..];
      var first := DescBytes(gs[0].id, gs[0].count, gs[0].state) + NsidBytes(gs[0].nsids);
      assert GroupsBytes(gs) == first + GroupsBytes(gs[1..]);
    }
  }

  lemma {:induction false} NsidLayout(nsids: seq<nat>, k: nat)
    requires k < |nsids|
    ensures NsidBytes(nsids)[4 * k..4 * k + 4] == Le4(nsids[k])
  {
    Le4Is(nsids[0]);
    hide ToLe;
    if k > 0 {
      NsidLayout(nsids[1..], k - 1);
      assert NsidBytes(nsids)[4..] == NsidBytes(nsids[1..]);
      assert NsidBytes(nsids)[4 * k..4 * k + 4] == NsidBytes(nsids[1..])[4 * (k - 1)..4 * (k - 1) + 4];
    }
  }

  /** The bytes of a page lie where the specification has them: the number of groups in bytes 8
      and 9; for each group its id, its count and its state in bytes 0-3, 4-7 and 16 of its
      descriptor; its NSIDs in the order given right behind it; zeros elsewhere. */
  lemma {:induction false} PageLayout(gs: seq<Group>, j: nat, k: nat)
    requires j < |gs| && k < |gs[j].nsids|
    ensures var page, at := PageBytes(gs), 16 + EntryOffset(gs, j);
            && at + 32 + 4 * |gs[j].nsids| <= |page|
            && page[..16] == [0, 0, 0, 0, 0, 0, 0, 0, |gs| % 256, |gs| / 256 % 256, 0, 0, 0, 0, 0, 0]
            && page[at..at + 32] == Le4(gs[j].id) + Le4(gs[j].count) + Zeros(8) + [gs[j].state] + Zeros(15)
            && page[at + 32 + 4 * k..at + 36 + 4 * k] == Le4(gs[j].nsids[k])
  {
    var g := gs[j];
    HeaderLayout(|gs|);
    DescLayout(g.id, g.count, g.state);
    EntryAt(gs, j);
    NsidLayout(g.nsids, k);
    hide HeaderBytes, DescBytes, NsidBytes, GroupsBytes, Le4;
    var body, from := GroupsBytes(gs), EntryOffset(gs, j);
    var desc, nsids, after := DescBytes(g.id, g.count, g.state), NsidBytes(g.nsids), GroupsBytes(gs[j + 1..]);
    SliceOfTail(body, from, desc, nsids, after, 4 * k, 4 * k + 4);
    assert PageBytes(gs)[16 + from..16 + from + 32] == body[from..from + 32];
    assert PageBytes(gs)[16 + from + 32 + 4 * k..16 + from + 36 + 4 * k] == body[from + 32 + 4 * k..from + 36 + 4 * k];
  }

  lemma SliceOfTail(body: seq<Byte>, from: nat, a: seq<Byte>, b: seq<Byte>, c: seq<Byte>, i: nat, j: nat)
    requires from <= |body| && body[from..] == a + (b + c) && i <= j <= |b|
    ensures from + |a| + |b| <= |body|
    ensures body[from..from + |a|] == a && body[from + |a| + i..from + |a| + j] == b[i..j]
  {
    assert body[from..][..|a|] == a;
    assert body[from..][|a| + i..|a| + j] == b[i..j];
  }
}
