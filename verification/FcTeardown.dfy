/** Tearing down Fibre Channel connections, associations and remote ports: coalesced deletes
    and their callbacks (nvmf/fc_ls.c:180-204, 273-468, 532-547, 583-599, 626-760, 1071-1093;
    nvmf/fc.c:2469-2615). */
module FcTeardown {
  import opened Collections
  import opened Options

  const ENODEV := 19

  /** `spdk_nvmf_fc_object_state` */
  datatype ObjectState = Created | ToBeDeleted | Zombie

  /** `sent` counts the DEL_CONNECTION messages of the connection's present use; `delCbs`
      lists the callbacks chained to its deletion; `queued`: its `hwqp` is assigned. */
  datatype Conn = Conn(state: ObjectState, delCbs: seq<nat>, sent: nat, queued: bool)

  /** A callback chained to an association's deletion; `it`: the one of an I_T delete. */
  datatype Cb = Cb(id: nat, it: bool)

  /** `total` connections were allocated with the association. */
  datatype Assoc = Assoc(
    rport: nat, total: nat, conns: seq<nat>, avail: seq<nat>, conn: map<nat, Conn>,
    connCount: int, toBeDeleted: bool, delCbs: seq<Cb>)

  /** In-use and available connections partition the preallocated set. */
  ghost predicate Partition(conns: seq<nat>, avail: seq<nat>, total: nat) {
    && Distinct(conns) && Distinct(avail)
    && (forall c :: c in conns ==> c !in avail)
    && (forall c: nat :: c < total <==> c in conns || c in avail)
  }

  /** Exactly the connections marked for deletion have been sent to their poller, once. */
  predicate ConnOk(c: Conn) {
    c.state != Zombie && c.sent == (if c.state == ToBeDeleted then 1 else 0) && (c.state == Created ==> c.delCbs == [])
  }

  ghost predicate AssocOk(x: Assoc) {
    && Partition(x.conns, x.avail, x.total) && x.connCount == |x.conns| > 0
    && (forall c :: c in x.conns ==> c in x.conn && ConnOk(x.conn[c]))
    && (x.toBeDeleted ==> forall c :: c in x.conns ==> x.conn[c].state == ToBeDeleted)
    && (!x.toBeDeleted ==> x.delCbs == [])
  }

  // One association.

  /** `nvmf_fc_ls_new_association` with its admin connection. */
  function NewAssoc(rport: nat, total: nat): Assoc
    requires total > 0
  {
    Assoc(rport, total, [0], Iota(1, total), map[0 := Conn(Created, [], 0, false)], 1, false, [])
  }

  /** `nvmf_fc_ls_new_connection`. */
  function NewConn(x: Assoc): Assoc
    requires x.avail != []
  {
    var c := x.avail[0];
    x.(conns := x.conns + [c], avail := x.avail[1..], conn := x.conn[c := Conn(Created, [], 0, false)], connCount := x.connCount + 1)
  }

  function WithQueue(x: Assoc, c: nat): Assoc
    requires c in x.conn
  {
    x.(conn := x.conn[c := x.conn[c].(queued := true)])
  }

  predicate ConnsKnown(x: Assoc) {
    forall c :: c in x.conns ==> c in x.conn
  }

  /** `nvmf_fc_ls_poller_delete_conn`. */
  function RequestDelete(c: Conn, cb: Option<nat>): Conn {
    var c' := if cb.Some? then c.(delCbs := c.delCbs + [cb.value]) else c;
    if c.state == Created then c'.(state := ToBeDeleted, sent := c.sent + 1) else c'
  }

  function DeleteConn(x: Assoc, c: nat, cb: Option<nat>): Assoc
    requires c in x.conn
  {
    x.(conn := x.conn[c := RequestDelete(x.conn[c], cb)])
  }

  /** The loop of `_nvmf_fc_delete_association` over the connections. */
  function DeleteConns(m: map<nat, Conn>, conns: seq<nat>): map<nat, Conn>
    requires forall c :: c in conns ==> c in m
  {
    map c | c in m :: if c in conns then RequestDelete(m[c], None) else m[c]
  }

  /** `_nvmf_fc_delete_association`. */
  function DeleteAssoc(x: Assoc, cb: Cb): (r: Assoc)
    requires ConnsKnown(x)
    ensures ConnsKnown(r)
  {
    var x' := x.(delCbs := x.delCbs + [cb]);
    if x.toBeDeleted then x' else x'.(toBeDeleted := true, conn := DeleteConns(x.conn, x.conns))
  }

  function Without(s: seq<nat>, v: nat): seq<nat>
    requires v in s
  {
    s[..IndexOf(s, v)] + s[IndexOf(s, v) + 1..]
  }

  /** The connection's part of `nvmf_fc_del_connection`. */
  function DelConnection(x: Assoc, c: nat): Assoc
    requires c in x.conns && c in x.conn
  {
    x.(conns := Without(x.conns, c), avail := x.avail + [c],
       conn := x.conn[c := x.conn[c].(state := Zombie, delCbs := [])], connCount := x.connCount - 1)
  }

  lemma {:induction false} WithoutHas(s: seq<nat>, v: nat)
    requires v in s && Distinct(s)
    ensures Distinct(Without(s, v)) && |Without(s, v)| == |s| - 1
    ensures forall k :: k in Without(s, v) <==> k in s && k != v
  {
    var i, r := IndexOf(s, v), Without(s, v);
    forall k | k in s && k != v ensures k in r {
      var j :| 0 <= j < |s| && s[j] == k;
      assert r[if j < i then j else j - 1] == k;
    }
  }

  lemma {:induction false} NewAssocOk(rport: nat, total: nat)
    requires total > 0
    ensures AssocOk(NewAssoc(rport, total))
  {
    var x := NewAssoc(rport, total);
    forall c: nat | c < total ensures c in x.conns || c in x.avail {
      assert c > 0 ==> x.avail[c - 1] == c;
    }
  }

  lemma {:induction false} NewConnOk(x: Assoc)
    requires AssocOk(x) && x.avail != [] && !x.toBeDeleted
    ensures AssocOk(NewConn(x))
  {
    MovePartition(x.conns, x.avail, x.total);
    hide Partition, Distinct;
  }

  lemma {:induction false} MovePartition(conns: seq<nat>, avail: seq<nat>, total: nat)
    requires Partition(conns, avail, total) && avail != []
    ensures Partition(conns + [avail[0]], avail[1..], total)
  {
    var conns', avail' := conns + [avail[0]], avail[1..];
    assert avail == [avail[0]] + avail';
    assert avail[0] in avail && avail[0] !in conns;
    assert forall i :: 0 <= i < |avail'| ==> avail'[i] == avail[i + 1] != avail[0];
    assert forall c: nat :: c in conns' <==> c in conns || c == avail[0];
    assert forall c: nat :: c in avail <==> c == avail[0] || c in avail';
  }

  lemma {:induction false} DeleteConnOk(x: Assoc, c: nat, cb: Option<nat>)
    requires AssocOk(x) && c in x.conns
    ensures AssocOk(DeleteConn(x, c, cb))
  {}

  lemma {:induction false} DeleteAssocOk(x: Assoc, cb: Cb)
    requires AssocOk(x)
    ensures AssocOk(DeleteAssoc(x, cb))
  {}

  /** A deleted connection goes back to the pool; only the last one leaves nothing in use. */
  lemma {:induction false} DelConnectionOk(x: Assoc, c: nat)
    requires AssocOk(x) && c in x.conns
    ensures var x' := DelConnection(x, c);
            Partition(x'.conns, x'.avail, x'.total) && x'.connCount == |x'.conns| && (x'.connCount != 0 ==> AssocOk(x'))
  {
    WithoutHas(x.conns, c);
    var x' := DelConnection(x, c);
    forall k: nat ensures k in x'.conns || k in x'.avail <==> k in x.conns || k in x.avail {}
  }

  /** However often a connection's or its association's deletion is requested, its poller is
      told once. */
  lemma {:induction false} DeletesCoalesce(x: Assoc, c: nat, cbs: seq<Option<nat>>, cb: Cb)
    requires AssocOk(x) && c in x.conns && cbs != []
    ensures DeleteAll(x, c, cbs).conn[c].sent == 1 && DeleteAssoc(DeleteAll(x, c, cbs), cb).conn[c].sent == 1
    ensures AssocOk(DeleteAll(x, c, cbs))
    decreases |cbs|
  {
    DeleteConnOk(x, c, cbs[0]);
    if |cbs| > 1 {
      DeletesCoalesce(DeleteConn(x, c, cbs[0]), c, cbs[1..], cb);
    }
  }

  function DeleteAll(x: Assoc, c: nat, cbs: seq<Option<nat>>): (r: Assoc)
    requires c in x.conn
    ensures r.conn.Keys == x.conn.Keys && r.conns == x.conns
    decreases |cbs|
  {
    if cbs == [] then x else DeleteAll(DeleteConn(x, c, cbs[0]), c, cbs[1..])
  }

  // The target port.

  /** `freed` counts how often a remote port was freed; freeing takes it off the list that is
      searched, which never finds a port that is not `Created`. */
  datatype Rport = Rport(assocCount: int, state: ObjectState, freed: nat)

  /** Where a registered callback is. */
  datatype Where = AtConn(a: nat, c: nat) | AtAssoc(a: nat) | Ran

  /** `ran` lists the callbacks in the order they were run, `place` every one ever registered;
      `crashed`: the process has used a null hardware queue. */
  datatype State = State(
    assocs: map<nat, Assoc>, assocCount: int, rports: map<nat, Rport>, place: map<nat, Where>, ran: seq<nat>, crashed: bool)

  datatype Event =
    | CreateAssoc(a: nat, rport: nat, total: nat)
    | CreateConn(a: nat)
    | AssignQueue(a: nat, c: nat)                            // `nvmf_fc_poll_group_add`
    | DeleteConnection(a: nat, c: nat, cb: nat)
    | DeleteAssociation(a: nat, cb: nat)
    | ItDelete(rport: nat, targets: seq<nat>, cbs: seq<nat>) // `nvmf_fc_adm_evnt_i_t_delete`
    | DelConnDone(a: nat, c: nat)                            // `nvmf_fc_ls_poller_delete_conn_cb`
    | AddConnFailed(a: nat, c: nat)                          // `nvmf_fc_ls_add_conn_failure`

  function AssocsOf(m: map<nat, Assoc>, rport: nat): set<nat> {
    set a | a in m && m[a].rport == rport
  }

  function Ids(cbs: seq<Cb>): (r: seq<nat>)
    ensures |r| == |cbs| && forall i :: 0 <= i < |r| ==> r[i] == cbs[i].id
  {
    if cbs == [] then [] else [cbs[0].id] + Ids(cbs[1..])
  }

  function ItCount(cbs: seq<Cb>): nat {
    if cbs == [] then 0 else ItCount(cbs[..|cbs| - 1]) + (if cbs[|cbs| - 1].it then 1 else 0)
  }

  /** The test of both an LS frame's remote port and the search of an I_T delete. */
  predicate Usable(s: State, rport: nat) {
    rport in s.rports && s.rports[rport].state == Created
  }

  /** What an I_T delete answers at once. */
  function ItDeleteResult(s: State, rport: nat): int {
    if Usable(s, rport) then 0 else -ENODEV
  }

  /** An I_T delete visits the associations of its remote port, with a new callback each. */
  ghost predicate ItTargets(s: State, rport: nat, targets: seq<nat>, cbs: seq<nat>) {
    && |targets| == |cbs| && Distinct(targets) && (forall a :: a in targets <==> a in AssocsOf(s.assocs, rport))
    && Distinct(cbs) && (forall cb :: cb in cbs ==> cb !in s.place)
  }

  predicate ConnInUse(s: State, a: nat, c: nat) {
    a in s.assocs && c in s.assocs[a].conns && c in s.assocs[a].conn
  }

  /** Every connection of the association has its hardware queue. */
  predicate Queued(x: Assoc) {
    forall c :: c in x.conns && c in x.conn ==> x.conn[c].queued
  }

  /** Adding a connection fails only before its queue is assigned. */
  ghost predicate Enabled(s: State, e: Event) {
    !s.crashed &&
    match e
    case CreateAssoc(a, rport, total) =>
      a !in s.assocs && total > 0
    case CreateConn(a) => a in s.assocs
    case AssignQueue(a, c) => ConnInUse(s, a, c) && !s.assocs[a].conn[c].queued
    case DeleteConnection(a, c, cb) => ConnInUse(s, a, c) && cb !in s.place
    case DeleteAssociation(a, cb) => a in s.assocs && cb !in s.place
    case ItDelete(rport, targets, cbs) =>
      Usable(s, rport) ==> ItTargets(s, rport, targets, cbs)
    case DelConnDone(a, c) => ConnInUse(s, a, c) && s.assocs[a].conn[c].sent > 0
    case AddConnFailed(a, c) => ConnInUse(s, a, c) && !s.assocs[a].conn[c].queued
  }

  /** A delete sends a message to the queue of each connection it marks; the code crashes, in
      the middle of it, if there is none. */
  ghost predicate UsesNullQueue(s: State, e: Event)
    requires Enabled(s, e)
  {
    match e
    case DeleteConnection(a, c, _) => !s.assocs[a].conn[c].queued
    case DeleteAssociation(a, _) => !Queued(s.assocs[a])
    case ItDelete(rport, targets, _) => Usable(s, rport) && exists a :: a in targets && a in s.assocs && !Queued(s.assocs[a])
    case _ => false
  }

  function AddToCount(s: State, rport: nat, d: int): State
    requires rport in s.rports
  {
    s.(assocCount := s.assocCount + d, rports := s.rports[rport := s.rports[rport].(assocCount := s.rports[rport].assocCount + d)])
  }

  function MarkRan(place: map<nat, Where>, cbs: seq<nat>): map<nat, Where> {
    map x | x in place :: if x in cbs then Ran else place[x]
  }

  /** An association goes with its last connection; each I_T callback chained to it frees
      the remote port if that has no association left. */
  function EndAssoc(s: State, a: nat, all: seq<nat>): State
    requires a in s.assocs && s.assocs[a].rport in s.rports
  {
    var x := s.assocs[a];
    var r := s.rports[x.rport];
    var n := r.assocCount - 1;
    var freed := r.freed + (if n == 0 then ItCount(x.delCbs) else 0);
    s.(assocs := s.assocs - {a}, assocCount := s.assocCount - 1, place := MarkRan(s.place, all), ran := s.ran + all,
       rports := s.rports[x.rport := r.(assocCount := n, freed := freed)])
  }

  /** `nvmf_fc_del_connection`, then the connection's own callbacks; with its last connection
      an association goes, and the callbacks chained to it run first. */
  function EndConn(s: State, a: nat, c: nat): State
    requires a in s.assocs && c in s.assocs[a].conns && c in s.assocs[a].conn && s.assocs[a].rport in s.rports
  {
    var x := s.assocs[a];
    var x' := DelConnection(x, c);
    var cbs := x.conn[c].delCbs;
    if x'.connCount != 0 then
      s.(assocs := s.assocs[a := x'], place := MarkRan(s.place, cbs), ran := s.ran + cbs)
    else EndAssoc(s, a, Ids(x.delCbs) + cbs)
  }

  function RegisterAssocDelete(s: State, a: nat, cb: Cb): State
    requires a in s.assocs && ConnsKnown(s.assocs[a])
  {
    s.(assocs := s.assocs[a := DeleteAssoc(s.assocs[a], cb)], place := s.place[cb.id := AtAssoc(a)])
  }

  /** The loop of an I_T delete. */
  function DeleteTargets(s: State, targets: seq<nat>, cbs: seq<nat>): State
    requires |targets| == |cbs| && forall a :: a in targets ==> a in s.assocs && ConnsKnown(s.assocs[a])
    decreases |targets|
  {
    if targets == [] then s
    else DeleteTargets(RegisterAssocDelete(s, targets[0], Cb(cbs[0], true)), targets[1..], cbs[1..])
  }

  function ItDeleteStep(s: State, rport: nat, targets: seq<nat>, cbs: seq<nat>): State
    requires rport in s.rports && |targets| == |cbs|
    requires forall a :: a in targets ==> a in s.assocs && ConnsKnown(s.assocs[a])
  {
    DeleteTargets(Begun(s, rport, targets == []), targets, cbs)
  }

  /** The end of `nvmf_fc_ls_process_cioc`. */
  function CreateConnAnswered(s: State, a: nat): State
    requires CountsOk(s) && a in s.assocs
  {
    if s.assocs[a].toBeDeleted || s.assocs[a].connCount >= s.assocs[a].total then s
    else
      AvailIfRoom(s.assocs[a]);
      s.(assocs := s.assocs[a := NewConn(s.assocs[a])])
  }

  function DeleteAssociationAnswered(s: State, a: nat, cb: nat): State
    requires CountsOk(s) && a in s.assocs
  {
    RegisterAssocDelete(s, a, Cb(cb, false))
  }

  function ConnEnded(s: State, a: nat, c: nat): State
    requires CountsOk(s) && ConnInUse(s, a, c)
  {
    EndConn(s, a, c)
  }

  /** `nvmf_fc_adm_evnt_i_t_delete`. */
  function ItDeleteAnswered(s: State, rport: nat, targets: seq<nat>, cbs: seq<nat>): State
    requires CountsOk(s) && (Usable(s, rport) ==> ItTargets(s, rport, targets, cbs))
  {
    if ItDeleteResult(s, rport) == 0 then ItDeleteStep(s, rport, targets, cbs) else s
  }

  ghost function Step(s: State, e: Event): State
    requires Inv(s) && Enabled(s, e)
  {
    if UsesNullQueue(s, e) then s.(crashed := true) else Served(s, e)
  }

  function Served(s: State, e: Event): State
    requires CountsOk(s) && Enabled(s, e)
  {
    match e
    case CreateAssoc(a, rport, total) =>
      if Usable(s, rport) then AddToCount(s.(assocs := s.assocs[a := NewAssoc(rport, total)]), rport, 1) else s
    case CreateConn(a) => CreateConnAnswered(s, a)
    case AssignQueue(a, c) => s.(assocs := s.assocs[a := WithQueue(s.assocs[a], c)])
    case DeleteConnection(a, c, cb) =>
      s.(assocs := s.assocs[a := DeleteConn(s.assocs[a], c, Some(cb))], place := s.place[cb := AtConn(a, c)])
    case DeleteAssociation(a, cb) => DeleteAssociationAnswered(s, a, cb)
    case ItDelete(rport, targets, cbs) => ItDeleteAnswered(s, rport, targets, cbs)
    case DelConnDone(a, c) => ConnEnded(s, a, c)
    case AddConnFailed(a, c) => ConnEnded(s, a, c)
  }

  lemma {:induction false} AvailIfRoom(x: Assoc)
    requires AssocOk(x) && x.connCount < x.total
    ensures x.avail != []
  {
    if x.avail == [] {
      Pigeonhole(Iota(0, x.total), x.conns);
    }
  }

  // The invariant.

  /** Every chained callback is placed where it is chained, once. */
  ghost predicate ChainsOk(s: State, a: nat)
    requires a in s.assocs
  {
    var x := s.assocs[a];
    && (forall c :: c in x.conns ==> ConnChainOk(s, a, c))
    && Distinct(Ids(x.delCbs)) && (forall i :: i in Ids(x.delCbs) ==> i in s.place && s.place[i] == AtAssoc(a))
  }

  ghost predicate ConnChainOk(s: State, a: nat, c: nat)
    requires a in s.assocs
  {
    c in s.assocs[a].conn && Distinct(s.assocs[a].conn[c].delCbs)
    && forall i :: i in s.assocs[a].conn[c].delCbs ==> i in s.place && s.place[i] == AtConn(a, c)
  }

  /** A registered callback has run, or is chained where it is placed. */
  ghost predicate PlaceOk(s: State, i: nat)
    requires i in s.place
  {
    match s.place[i]
    case AtConn(a, c) => a in s.assocs && c in s.assocs[a].conns && c in s.assocs[a].conn && i in s.assocs[a].conn[c].delCbs
    case AtAssoc(a) => a in s.assocs && i in Ids(s.assocs[a].delCbs)
    case Ran => i in s.ran
  }

  ghost predicate CallbacksOk(s: State) {
    && (forall a :: a in s.assocs ==> ChainsOk(s, a))
    && (forall i :: i in s.place ==> PlaceOk(s, i))
    && Distinct(s.ran) && forall i :: i in s.ran ==> i in s.place && s.place[i] == Ran
  }

  /** A remote port counts its associations and is freed, once, when its I_T delete has
      begun and its last association is gone. */
  ghost predicate RportOk(s: State, r: nat)
    requires r in s.rports
  {
    var p := s.rports[r];
    && p.state != Zombie && p.assocCount == |AssocsOf(s.assocs, r)|
    && p.freed == (if p.state == ToBeDeleted && AssocsOf(s.assocs, r) == {} then 1 else 0)
  }

  /** The I_T callback is chained once to every association of its remote port. */
  ghost predicate ItOk(s: State, a: nat)
    requires a in s.assocs
  {
    && s.assocs[a].rport in s.rports
    && ItCount(s.assocs[a].delCbs) == if s.rports[s.assocs[a].rport].state == ToBeDeleted then 1 else 0
  }

  ghost predicate CountsOk(s: State) {
    && s.assocCount == |s.assocs|
    && (forall r :: r in s.rports ==> RportOk(s, r))
    && (forall a :: a in s.assocs ==> AssocOk(s.assocs[a]) && ItOk(s, a))
  }

  ghost predicate Inv(s: State) {
    CountsOk(s) && CallbacksOk(s)
  }

  // Every event keeps the invariant.

  lemma {:induction false} AssocsPut(m: map<nat, Assoc>, a: nat, x: Assoc, r: nat)
    ensures |AssocsOf(m[a := x], r)| == |AssocsOf(m - {a}, r)| + (if x.rport == r then 1 else 0)
    ensures a in m && m[a].rport == x.rport ==> AssocsOf(m[a := x], r) == AssocsOf(m, r)
  {
    CardWithout(AssocsOf(m[a := x], r), a);
    assert AssocsOf(m[a := x], r) - {a} == AssocsOf(m - {a}, r) by {
      assert forall b :: b != a ==> (b in AssocsOf(m[a := x], r) <==> b in AssocsOf(m - {a}, r));
    }
  }

  lemma AssocsOther(m: map<nat, Assoc>, a: nat, x: Assoc, r: nat)
    requires a !in m
    ensures x.rport != r ==> AssocsOf(m[a := x], r) == AssocsOf(m, r)
  {}

  lemma {:induction false} AssocsDrop(m: map<nat, Assoc>, a: nat, r: nat)
    requires a in m
    ensures |AssocsOf(m - {a}, r)| == |AssocsOf(m, r)| - (if m[a].rport == r then 1 else 0)
    ensures m[a].rport != r ==> AssocsOf(m - {a}, r) == AssocsOf(m, r)
    ensures |m - {a}| == |m| - 1
  {
    CardWithout(AssocsOf(m, r), a);
    assert AssocsOf(m, r) - {a} == AssocsOf(m - {a}, r);
    assert (m - {a}).Keys == m.Keys - {a};
    CardWithout(m.Keys, a);
  }

  /** Replacing one association by one of the same remote port, with the same I_T callbacks. */
  lemma {:induction false} CountsPut(s: State, s': State, a: nat, x: Assoc)
    requires CountsOk(s) && a in s.assocs && s'.assocs == s.assocs[a := x] && s'.assocCount == s.assocCount
    requires s'.rports == s.rports && AssocOk(x) && x.rport == s.assocs[a].rport && ItCount(x.delCbs) == ItCount(s.assocs[a].delCbs)
    ensures CountsOk(s')
  {
    hide AssocOk, ItCount;
    assert s'.assocs.Keys == s.assocs.Keys;
    forall r | r in s'.rports ensures RportOk(s', r) {
      assert RportOk(s, r);
      AssocsPut(s.assocs, a, x, r);
    }
    forall b | b in s'.assocs ensures AssocOk(s'.assocs[b]) && ItOk(s', b) {
      assert ItOk(s, b);
    }
  }

  /** Replacing one association and registering at most one callback `i` for it. */
  lemma {:induction false} CallbacksPut(s: State, s': State, a: nat, x: Assoc, added: Option<nat>)
    requires CallbacksOk(s) && s'.assocs == s.assocs[a := x] && s'.ran == s.ran
    requires added.Some? ==> added.value !in s.place && added.value in s'.place && s'.place[added.value] != Ran
    requires s'.place.Keys == s.place.Keys + (if added.Some? then {added.value} else {})
    requires forall i :: i in s.place ==> s'.place[i] == s.place[i]
    requires ChainsOk(s', a)
    requires forall i :: i in s'.place && (s'.place[i].AtConn? || s'.place[i].AtAssoc?) && s'.place[i].a == a ==> PlaceOk(s', i)
    requires added.Some? ==> s'.place[added.value].a == a
    ensures CallbacksOk(s')
  {
    forall b | b in s'.assocs ensures ChainsOk(s', b) {
      if b != a {
        assert ChainsOk(s, b);
        forall c | c in s'.assocs[b].conns ensures ConnChainOk(s', b, c) {
          assert ConnChainOk(s, b, c);
        }
      }
    }
    forall i | i in s'.place ensures PlaceOk(s', i) {
      assert i in s.place ==> PlaceOk(s, i);
    }
  }

  lemma {:induction false} CreateAssocKeepsInv(s: State, a: nat, rport: nat, total: nat)
    requires Inv(s) && Enabled(s, CreateAssoc(a, rport, total)) && Usable(s, rport)
    ensures Inv(Served(s, CreateAssoc(a, rport, total)))
  {
    var s' := Served(s, CreateAssoc(a, rport, total));
    NewAssocOk(rport, total);
    NewAssocCounts(s, s', a, rport, NewAssoc(rport, total));
    hide CountsOk, ConnChainOk;
    NewAssocChains(s', a, rport, total);
    NewAssocCallbacks(s, s', a, NewAssoc(rport, total));
  }

  lemma {:induction false} NewAssocCallbacks(s: State, s': State, a: nat, x: Assoc)
    requires CallbacksOk(s) && a !in s.assocs && s'.assocs == s.assocs[a := x] && ChainsOk(s', a)
    requires s'.ran == s.ran && s'.place == s.place
    ensures CallbacksOk(s')
  {
    forall b | b in s'.assocs ensures ChainsOk(s', b) {
      if b != a {
        assert ChainsOk(s, b);
        forall c | c in s'.assocs[b].conns ensures ConnChainOk(s', b, c) {
          assert ConnChainOk(s, b, c);
        }
      }
    }
    forall i | i in s'.place ensures PlaceOk(s', i) {
      assert PlaceOk(s, i);
    }
  }

  lemma NewAssocChains(s: State, a: nat, rport: nat, total: nat)
    requires total > 0 && a in s.assocs && s.assocs[a] == NewAssoc(rport, total)
    ensures ChainsOk(s, a)
  {
    assert forall c :: c in s.assocs[a].conns ==> c == 0;
  }

  lemma {:induction false} NewAssocRport(s: State, s': State, a: nat, x: Assoc, r: nat)
    requires r in s.rports && r in s'.rports && RportOk(s, r) && a !in s.assocs && s'.assocs == s.assocs[a := x]
    requires r == x.rport ==> s.rports[r].state == Created
    requires s'.rports[r] == s.rports[r].(assocCount := s.rports[r].assocCount + (if r == x.rport then 1 else 0))
    ensures RportOk(s', r)
  {
    assert s.assocs - {a} == s.assocs;
    AssocsPut(s.assocs, a, x, r);
    AssocsOther(s.assocs, a, x, r);
    hide AssocsOf;
  }

  lemma {:induction false} NewAssocCounts(s: State, s': State, a: nat, rport: nat, x: Assoc)
    requires CountsOk(s) && a !in s.assocs && rport in s.rports && s.rports[rport].state == Created
    requires s'.assocs == s.assocs[a := x] && AssocOk(x) && x.rport == rport && x.delCbs == []
    requires s'.assocCount == s.assocCount + 1
    requires s'.rports == s.rports[rport := s.rports[rport].(assocCount := s.rports[rport].assocCount + 1)]
    ensures CountsOk(s')
  {
    hide AssocOk, RportOk, ItOk;
    forall r | r in s'.rports ensures RportOk(s', r) {
      NewAssocRport(s, s', a, x, r);
    }
    NewAssocIts(s, s', a, x);
  }

  lemma {:induction false} NewAssocIts(s: State, s': State, a: nat, x: Assoc)
    requires CountsOk(s) && a !in s.assocs && x.rport in s.rports && s.rports[x.rport].state == Created && x.delCbs == []
    requires s'.assocs == s.assocs[a := x] && s'.rports.Keys == s.rports.Keys
    requires forall r :: r in s.rports ==> s'.rports[r].state == s.rports[r].state
    ensures forall b :: b in s'.assocs ==> ItOk(s', b)
  {
    hide AssocOk, RportOk;
    forall b | b in s'.assocs ensures ItOk(s', b) {
      assert b != a ==> ItOk(s, b);
    }
  }

  lemma {:induction false} CreateConnKeepsInv(s: State, a: nat)
    requires Inv(s) && Enabled(s, CreateConn(a))
    ensures Inv(Served(s, CreateConn(a)))
  {
    var s' := Served(s, CreateConn(a));
    if s' != s {
      var x := s.assocs[a];
      AvailIfRoom(x);
      NewConnOk(x);
      CountsPut(s, s', a, NewConn(x));
      NewConnCallbacks(s, s', a);
      hide CountsOk, CallbacksOk;
    }
  }

  lemma {:induction false} NewConnCallbacks(s: State, s': State, a: nat)
    requires CallbacksOk(s) && a in s.assocs && AssocOk(s.assocs[a]) && s.assocs[a].avail != []
    requires s' == s.(assocs := s.assocs[a := NewConn(s.assocs[a])])
    ensures CallbacksOk(s')
  {
    var x := s.assocs[a];
    assert ChainsOk(s, a);
    assert x.avail[0] in x.avail && x.avail[0] !in x.conns;
    hide AssocOk;
    forall c | c in s'.assocs[a].conns ensures ConnChainOk(s', a, c) {
      assert c != x.avail[0] ==> ConnChainOk(s, a, c);
    }
    forall i | i in s'.place && (s'.place[i].AtConn? || s'.place[i].AtAssoc?) && s'.place[i].a == a ensures PlaceOk(s', i) {
      assert PlaceOk(s, i);
    }
    CallbacksPut(s, s', a, NewConn(x), None);
  }

  lemma {:induction false} DeleteConnectionKeepsInv(s: State, a: nat, c: nat, cb: nat)
    requires Inv(s) && Enabled(s, DeleteConnection(a, c, cb))
    ensures Inv(Served(s, DeleteConnection(a, c, cb)))
  {
    var x := s.assocs[a];
    DeleteConnOk(x, c, Some(cb));
    CountsPut(s, Served(s, DeleteConnection(a, c, cb)), a, DeleteConn(x, c, Some(cb)));
    ConnRegisterKeepsCallbacks(s, a, c, cb);
    hide CountsOk, CallbacksOk;
  }

  lemma {:induction false} ConnRegisterKeepsCallbacks(s: State, a: nat, c: nat, cb: nat)
    requires CallbacksOk(s) && a in s.assocs && c in s.assocs[a].conns && c in s.assocs[a].conn && cb !in s.place
    ensures CallbacksOk(s.(assocs := s.assocs[a := DeleteConn(s.assocs[a], c, Some(cb))], place := s.place[cb := AtConn(a, c)]))
  {
    var s' := s.(assocs := s.assocs[a := DeleteConn(s.assocs[a], c, Some(cb))], place := s.place[cb := AtConn(a, c)]);
    ConnChainGrows(s, s', a, c, cb);
    ConnPlacesGrow(s, s', a, c, cb);
    hide ChainsOk, PlaceOk, DeleteConn;
    CallbacksPut(s, s', a, s'.assocs[a], Some(cb));
  }

  lemma {:induction false} ConnChainGrows(s: State, s': State, a: nat, c: nat, cb: nat)
    requires a in s.assocs && c in s.assocs[a].conns && c in s.assocs[a].conn && cb !in s.place && ChainsOk(s, a)
    requires s'.assocs == s.assocs[a := DeleteConn(s.assocs[a], c, Some(cb))] && s'.place == s.place[cb := AtConn(a, c)]
    ensures ChainsOk(s', a)
  {
    forall d | d in s'.assocs[a].conns ensures ConnChainOk(s', a, d) {
      assert ConnChainOk(s, a, d);
    }
  }

  lemma {:induction false} ConnPlacesGrow(s: State, s': State, a: nat, c: nat, cb: nat)
    requires a in s.assocs && c in s.assocs[a].conns && c in s.assocs[a].conn && cb !in s.place && CallbacksOk(s)
    requires s'.assocs == s.assocs[a := DeleteConn(s.assocs[a], c, Some(cb))] && s'.place == s.place[cb := AtConn(a, c)]
    requires s'.ran == s.ran
    ensures forall i :: i in s'.place ==> PlaceOk(s', i)
  {
    hide ChainsOk;
    forall i | i in s'.place ensures PlaceOk(s', i) {
      assert i != cb ==> PlaceOk(s, i);
    }
  }

  lemma {:induction false} IdsAppend(cbs: seq<Cb>, cb: Cb)
    ensures Ids(cbs + [cb]) == Ids(cbs) + [cb.id]
    ensures ItCount(cbs + [cb]) == ItCount(cbs) + (if cb.it then 1 else 0)
  {
    assert (cbs + [cb])[..|cbs|] == cbs;
  }

  lemma DistinctAppend(ids: seq<nat>, id: nat)
    ensures Distinct(ids) && id !in ids ==> Distinct(ids + [id])
  {}

  lemma {:induction false} AssocChainGrows(s: State, s': State, a: nat, cb: Cb)
    requires a in s.assocs && cb.id !in s.place && ChainsOk(s, a) && ConnsKnown(s.assocs[a])
    requires s'.assocs == s.assocs[a := DeleteAssoc(s.assocs[a], cb)] && s'.place == s.place[cb.id := AtAssoc(a)]
    ensures ChainsOk(s', a)
  {
    DeleteAssocChains(s.assocs[a], cb);
    hide Ids, DeleteAssoc, ConnsKnown;
    forall d | d in s'.assocs[a].conns ensures ConnChainOk(s', a, d) {
      assert ConnChainOk(s, a, d);
    }
    DistinctAppend(Ids(s.assocs[a].delCbs), cb.id);
  }

  /** Deleting an association chains its callback and nothing else. */
  lemma {:induction false} DeleteAssocChains(x: Assoc, cb: Cb)
    requires ConnsKnown(x)
    ensures var x' := DeleteAssoc(x, cb);
            && x'.conns == x.conns && x'.conn.Keys == x.conn.Keys && Ids(x'.delCbs) == Ids(x.delCbs) + [cb.id]
            && x'.rport == x.rport && ItCount(x'.delCbs) == ItCount(x.delCbs) + (if cb.it then 1 else 0)
            && forall c :: c in x.conn ==> x'.conn[c].delCbs == x.conn[c].delCbs
  {
    IdsAppend(x.delCbs, cb);
  }

  lemma {:induction false} AssocPlacesGrow(s: State, s': State, a: nat, cb: Cb)
    requires a in s.assocs && cb.id !in s.place && CallbacksOk(s) && ConnsKnown(s.assocs[a])
    requires s'.assocs == s.assocs[a := DeleteAssoc(s.assocs[a], cb)] && s'.place == s.place[cb.id := AtAssoc(a)]
    requires s'.ran == s.ran
    ensures forall i :: i in s'.place ==> PlaceOk(s', i)
  {
    DeleteAssocChains(s.assocs[a], cb);
    hide ChainsOk, Ids, DeleteAssoc;
    forall i | i in s'.place ensures PlaceOk(s', i) {
      assert i != cb.id ==> PlaceOk(s, i);
    }
  }

  /** Registering a callback at an association keeps all callbacks accounted for. */
  lemma {:induction false} RegisterKeepsCallbacks(s: State, a: nat, cb: Cb)
    requires CallbacksOk(s) && a in s.assocs && cb.id !in s.place && AssocOk(s.assocs[a])
    ensures CallbacksOk(RegisterAssocDelete(s, a, cb))
  {
    var s' := RegisterAssocDelete(s, a, cb);
    AssocChainGrows(s, s', a, cb);
    AssocPlacesGrow(s, s', a, cb);
    hide ChainsOk, PlaceOk, AssocOk;
    CallbacksPut(s, s', a, s'.assocs[a], Some(cb.id));
  }

  lemma {:induction false} DeleteAssociationKeepsInv(s: State, a: nat, cb: nat)
    requires Inv(s) && Enabled(s, DeleteAssociation(a, cb))
    ensures Inv(Served(s, DeleteAssociation(a, cb)))
  {
    RegisterKeepsCallbacks(s, a, Cb(cb, false));
    DeleteAssocOk(s.assocs[a], Cb(cb, false));
    IdsAppend(s.assocs[a].delCbs, Cb(cb, false));
    CountsPut(s, Served(s, DeleteAssociation(a, cb)), a, DeleteAssoc(s.assocs[a], Cb(cb, false)));
  }

  // An I_T delete: one registration after the other.

  lemma {:induction false} TargetsKeepCallbacks(s: State, targets: seq<nat>, cbs: seq<nat>)
    requires CallbacksOk(s) && |targets| == |cbs| && Distinct(cbs)
    requires forall a :: a in s.assocs ==> AssocOk(s.assocs[a])
    requires (forall a :: a in targets ==> a in s.assocs && ConnsKnown(s.assocs[a])) && (forall cb :: cb in cbs ==> cb !in s.place)
    ensures CallbacksOk(DeleteTargets(s, targets, cbs))
    decreases |targets|
  {
    if targets != [] {
      var next := RegisterAssocDelete(s, targets[0], Cb(cbs[0], true));
      RegisterKeepsCallbacks(s, targets[0], Cb(cbs[0], true));
      DeleteAssocOk(s.assocs[targets[0]], Cb(cbs[0], true));
      hide CallbacksOk, AssocOk;
      assert forall cb :: cb in cbs[1..] ==> cb != cbs[0];
      TargetsKeepCallbacks(next, targets[1..], cbs[1..]);
    }
  }

  /** What the loop leaves: the targets have one more I_T callback each, nothing else. */
  lemma {:induction false} TargetsAre(s: State, targets: seq<nat>, cbs: seq<nat>)
    requires |targets| == |cbs| && Distinct(targets)
    requires forall a :: a in targets ==> a in s.assocs && ConnsKnown(s.assocs[a])
    requires forall a :: a in s.assocs ==> AssocOk(s.assocs[a])
    ensures var t := DeleteTargets(s, targets, cbs);
            && t.assocs.Keys == s.assocs.Keys && t.assocCount == s.assocCount && t.rports == s.rports && t.ran == s.ran
            && forall a :: a in s.assocs ==>
                 && AssocOk(t.assocs[a]) && t.assocs[a].rport == s.assocs[a].rport
                 && ItCount(t.assocs[a].delCbs) == ItCount(s.assocs[a].delCbs) + (if a in targets then 1 else 0)
                 && (a in targets ==> t.assocs[a].toBeDeleted)
    decreases |targets|
  {
    if targets != [] {
      var x := s.assocs[targets[0]];
      var next := RegisterAssocDelete(s, targets[0], Cb(cbs[0], true));
      DeleteAssocOk(x, Cb(cbs[0], true));
      DeleteAssocChains(x, Cb(cbs[0], true));
      assert forall a :: a in targets <==> a == targets[0] || a in targets[1..];
      assert targets[0] !in targets[1..];
      assert next.assocs.Keys == s.assocs.Keys;
      hide AssocOk, ItCount, DeleteAssoc;
      TargetsAre(next, targets[1..], cbs[1..]);
      KeptDeleted(next, targets[1..], cbs[1..], targets[0]);
    }
  }

  lemma {:induction false} KeptDeleted(s: State, targets: seq<nat>, cbs: seq<nat>, a: nat)
    requires |targets| == |cbs| && a in s.assocs && s.assocs[a].toBeDeleted
    requires forall b :: b in targets ==> b in s.assocs && b != a && ConnsKnown(s.assocs[b])
    requires forall b :: b in s.assocs ==> AssocOk(s.assocs[b])
    ensures var t := DeleteTargets(s, targets, cbs); a in t.assocs && t.assocs[a] == s.assocs[a]
    decreases |targets|
  {
    if targets != [] {
      DeleteAssocOk(s.assocs[targets[0]], Cb(cbs[0], true));
      KeptDeleted(RegisterAssocDelete(s, targets[0], Cb(cbs[0], true)), targets[1..], cbs[1..], a);
    }
  }

  lemma {:induction false} ItDeleteCounts(s: State, t: State, rport: nat, targets: seq<nat>)
    requires CountsOk(s) && rport in s.rports && s.rports[rport].state == Created
    requires forall a :: a in targets <==> a in AssocsOf(s.assocs, rport)
    requires t.assocs.Keys == s.assocs.Keys && t.assocCount == s.assocCount
    requires var r := s.rports[rport].(state := ToBeDeleted);
             t.rports == s.rports[rport := if targets == [] && r.assocCount == 0 then r.(freed := r.freed + 1) else r]
    requires forall a :: a in s.assocs ==>
               && AssocOk(t.assocs[a]) && t.assocs[a].rport == s.assocs[a].rport
               && ItCount(t.assocs[a].delCbs) == ItCount(s.assocs[a].delCbs) + (if a in targets then 1 else 0)
    ensures CountsOk(t)
  {
    hide AssocOk, ItCount;
    assert forall r :: AssocsOf(t.assocs, r) == AssocsOf(s.assocs, r);
    assert targets == [] <==> AssocsOf(s.assocs, rport) == {} by {
      if targets != [] {
        assert targets[0] in targets;
      }
    }
    forall r | r in t.rports ensures RportOk(t, r) {
      assert RportOk(s, r);
    }
    forall a | a in t.assocs ensures ItOk(t, a) {
      assert ItOk(s, a);
    }
  }

  lemma {:induction false} ItDeleteKeepsInv(s: State, rport: nat, targets: seq<nat>, cbs: seq<nat>)
    requires Inv(s) && Usable(s, rport) && ItTargets(s, rport, targets, cbs)
    ensures forall a :: a in targets ==> a in s.assocs && ConnsKnown(s.assocs[a])
    ensures Inv(ItDeleteStep(s, rport, targets, cbs))
  {
    forall a | a in targets ensures a in s.assocs && ConnsKnown(s.assocs[a]) {
      assert a in AssocsOf(s.assocs, rport) && AssocOk(s.assocs[a]);
    }
    var begun := Begun(s, rport, targets == []);
    SameCallbacks(s, begun);
    hide CallbacksOk, CountsOk, ConnsKnown, AssocOk, ItCount;
    TargetsKeepCallbacks(begun, targets, cbs);
    TargetsKeepCounts(s, rport, targets, cbs);
  }

  /** An I_T delete that has just begun; with nothing to wait for its callback runs at once. */
  function Begun(s: State, rport: nat, noTargets: bool): State
    requires rport in s.rports
  {
    var r := s.rports[rport].(state := ToBeDeleted);
    s.(rports := s.rports[rport := if noTargets && r.assocCount == 0 then r.(freed := r.freed + 1) else r])
  }

  lemma {:induction false} TargetsKeepCounts(s: State, rport: nat, targets: seq<nat>, cbs: seq<nat>)
    requires CountsOk(s) && rport in s.rports && s.rports[rport].state == Created && |targets| == |cbs| && Distinct(targets)
    requires forall a :: a in targets <==> a in AssocsOf(s.assocs, rport)
    requires forall a :: a in targets ==> a in s.assocs && ConnsKnown(s.assocs[a])
    ensures CountsOk(DeleteTargets(Begun(s, rport, targets == []), targets, cbs))
  {
    var begun := Begun(s, rport, targets == []);
    TargetsAre(begun, targets, cbs);
    hide CountsOk, DeleteTargets, AssocOk, ItCount;
    ItDeleteCounts(s, DeleteTargets(begun, targets, cbs), rport, targets);
  }

  lemma {:induction false} SameCallbacks(s: State, t: State)
    requires CallbacksOk(s) && t.assocs == s.assocs && t.place == s.place && t.ran == s.ran
    ensures CallbacksOk(t)
  {
    forall b | b in t.assocs ensures ChainsOk(t, b) {
      assert ChainsOk(s, b);
      forall c | c in t.assocs[b].conns ensures ConnChainOk(t, b, c) {
        assert ConnChainOk(s, b, c);
      }
    }
    forall i | i in t.place ensures PlaceOk(t, i) {
      assert PlaceOk(s, i);
    }
  }

  // The end of a connection.

  /** Chained callbacks that are now run. */
  lemma {:induction false} RanAppend(s: State, cbs: seq<nat>)
    requires Distinct(s.ran) && Distinct(cbs) && (forall i :: i in s.ran ==> i in s.place && s.place[i] == Ran)
    requires forall i :: i in cbs ==> i in s.place && s.place[i] != Ran
    ensures Distinct(s.ran + cbs)
    ensures forall i :: i in s.ran + cbs ==> i in s.place && MarkRan(s.place, cbs)[i] == Ran
    ensures forall i :: i in s.place && MarkRan(s.place, cbs)[i] == Ran && s.place[i] != Ran ==> i in s.ran + cbs
  {
    forall j, k | 0 <= j < |s.ran| && 0 <= k < |cbs| ensures s.ran[j] != cbs[k] {
      assert s.ran[j] in s.ran && cbs[k] in cbs;
    }
  }

  /** The chains of another association are not touched. */
  lemma {:induction false} OtherChains(s: State, t: State, a: nat, cbs: seq<nat>, b: nat)
    requires b in s.assocs && b in t.assocs && b != a && t.assocs[b] == s.assocs[b] && ChainsOk(s, b)
    requires t.place == MarkRan(s.place, cbs)
    requires forall i :: i in cbs ==> i in s.place && s.place[i] != Ran && s.place[i].a == a
    ensures ChainsOk(t, b)
  {
    forall d | d in t.assocs[b].conns ensures ConnChainOk(t, b, d) {
      assert ConnChainOk(s, b, d);
    }
  }

  /** A connection that is not the last: its own callbacks are run. */
  lemma {:induction false} EndConnCallbacks(s: State, t: State, a: nat, c: nat)
    requires CallbacksOk(s) && a in s.assocs && AssocOk(s.assocs[a]) && c in s.assocs[a].conns
    requires var cbs := s.assocs[a].conn[c].delCbs;
             && t.assocs == s.assocs[a := DelConnection(s.assocs[a], c)]
             && t.place == MarkRan(s.place, cbs) && t.ran == s.ran + cbs
    ensures CallbacksOk(t)
  {
    var cbs := s.assocs[a].conn[c].delCbs;
    assert ChainsOk(s, a) && ConnChainOk(s, a, c);
    RanAppend(s, cbs);
    WithoutHas(s.assocs[a].conns, c);
    ShrunkChains(s, t, a, c);
    ShrunkPlaces(s, t, a, c);
    hide AssocOk, DelConnection, ChainsOk, PlaceOk, ConnChainOk, MarkRan, Distinct;
    forall b | b in t.assocs ensures ChainsOk(t, b) {
      if b != a {
        OtherChains(s, t, a, cbs, b);
      }
    }
  }

  lemma {:induction false} ShrunkChains(s: State, t: State, a: nat, c: nat)
    requires a in s.assocs && c in s.assocs[a].conns && c in s.assocs[a].conn && ChainsOk(s, a) && Distinct(s.assocs[a].conns)
    requires t.assocs == s.assocs[a := DelConnection(s.assocs[a], c)]
    requires t.place == MarkRan(s.place, s.assocs[a].conn[c].delCbs)
    ensures ChainsOk(t, a)
  {
    assert ConnChainOk(s, a, c);
    WithoutHas(s.assocs[a].conns, c);
    hide Without, Ids;
    forall d | d in t.assocs[a].conns ensures ConnChainOk(t, a, d) {
      assert ConnChainOk(s, a, d);
    }
  }

  lemma {:induction false} ShrunkPlaces(s: State, t: State, a: nat, c: nat)
    requires CallbacksOk(s) && a in s.assocs && c in s.assocs[a].conns && c in s.assocs[a].conn && Distinct(s.assocs[a].conns)
    requires t.assocs == s.assocs[a := DelConnection(s.assocs[a], c)]
    requires t.place == MarkRan(s.place, s.assocs[a].conn[c].delCbs) && t.ran == s.ran + s.assocs[a].conn[c].delCbs
    ensures forall i :: i in t.place ==> PlaceOk(t, i)
  {
    assert ChainsOk(s, a) && ConnChainOk(s, a, c);
    WithoutHas(s.assocs[a].conns, c);
    hide Without, Ids, ChainsOk, ConnChainOk;
    forall i | i in t.place ensures PlaceOk(t, i) {
      assert PlaceOk(s, i);
    }
  }

  /** The last connection: first the association's callbacks are run, then its own. */
  lemma {:induction false} EndAssocCallbacks(s: State, t: State, a: nat, c: nat)
    requires CallbacksOk(s) && a in s.assocs && c in s.assocs[a].conn && s.assocs[a].conns == [c]
    requires var all := Ids(s.assocs[a].delCbs) + s.assocs[a].conn[c].delCbs;
             && t.assocs == s.assocs - {a} && t.place == MarkRan(s.place, all) && t.ran == s.ran + all
    ensures CallbacksOk(t)
  {
    var all := Ids(s.assocs[a].delCbs) + s.assocs[a].conn[c].delCbs;
    AllChained(s, a, c, all);
    RanAppend(s, all);
    GonePlaces(s, t, a, c, all);
    hide Ids, ChainsOk, PlaceOk, ConnChainOk, MarkRan, Distinct;
    forall b | b in t.assocs ensures ChainsOk(t, b) {
      OtherChains(s, t, a, all, b);
    }
  }

  lemma {:induction false} AllChained(s: State, a: nat, c: nat, all: seq<nat>)
    requires a in s.assocs && c in s.assocs[a].conns && c in s.assocs[a].conn && ChainsOk(s, a)
    requires all == Ids(s.assocs[a].delCbs) + s.assocs[a].conn[c].delCbs
    ensures Distinct(all) && forall i :: i in all ==> i in s.place && s.place[i] != Ran && s.place[i].a == a
  {
    var ids, own := Ids(s.assocs[a].delCbs), s.assocs[a].conn[c].delCbs;
    assert ConnChainOk(s, a, c);
    hide Ids;
    forall j, k | 0 <= j < |ids| && 0 <= k < |own| ensures ids[j] != own[k] {
      assert ids[j] in ids && own[k] in own;
    }
  }

  lemma {:induction false} GonePlaces(s: State, t: State, a: nat, c: nat, all: seq<nat>)
    requires CallbacksOk(s) && a in s.assocs && c in s.assocs[a].conn && s.assocs[a].conns == [c]
    requires all == Ids(s.assocs[a].delCbs) + s.assocs[a].conn[c].delCbs
    requires t.assocs == s.assocs - {a} && t.place == MarkRan(s.place, all) && t.ran == s.ran + all
    ensures forall i :: i in t.place ==> PlaceOk(t, i)
  {
    hide Ids, ChainsOk, Distinct;
    forall i | i in t.place ensures PlaceOk(t, i) {
      assert PlaceOk(s, i);
    }
  }

  /** An association goes: its remote port is freed if it was the last one of an I_T delete. */
  lemma {:induction false} EndAssocCounts(s: State, a: nat, all: seq<nat>)
    requires CountsOk(s) && a in s.assocs && s.assocs[a].rport in s.rports
    ensures CountsOk(EndAssoc(s, a, all))
  {
    hide RportOk, ItOk, AssocOk, ItCount, AssocsOf, MarkRan;
    EndAssocRports(s, a, all);
    EndAssocIts(s, EndAssoc(s, a, all), a);
    AssocsDrop(s.assocs, a, 0);
  }

  lemma {:induction false} EndAssocRports(s: State, a: nat, all: seq<nat>)
    requires CountsOk(s) && a in s.assocs && s.assocs[a].rport in s.rports
    ensures var t := EndAssoc(s, a, all); forall r :: r in t.rports ==> RportOk(t, r)
  {
    assert ItOk(s, a);
    var t := EndAssoc(s, a, all);
    hide AssocOk, ItCount, RportOk, AssocsOf, MarkRan;
    forall r | r in t.rports ensures RportOk(t, r) {
      DropRport(s, t, a, r);
    }
  }

  lemma {:induction false} EndAssocIts(s: State, t: State, a: nat)
    requires CountsOk(s) && a in s.assocs && s.assocs[a].rport in s.rports && t.assocs == s.assocs - {a}
    requires t.rports.Keys == s.rports.Keys && forall r :: r in s.rports ==> t.rports[r].state == s.rports[r].state
    ensures forall b :: b in t.assocs ==> ItOk(t, b)
  {
    hide AssocOk, ItCount, RportOk;
    forall b | b in t.assocs ensures ItOk(t, b) {
      assert ItOk(s, b);
    }
  }

  lemma {:induction false} DropRport(s: State, t: State, a: nat, r: nat)
    requires r in s.rports && r in t.rports && RportOk(s, r) && a in s.assocs && t.assocs == s.assocs - {a}
    requires s.assocs[a].rport != r ==> t.rports[r] == s.rports[r]
    requires s.assocs[a].rport == r ==>
               var n := s.rports[r].assocCount - 1;
               && t.rports[r].assocCount == n && t.rports[r].state == s.rports[r].state
               && t.rports[r].freed == s.rports[r].freed + (if n == 0 && s.rports[r].state == ToBeDeleted then 1 else 0)
    ensures RportOk(t, r)
  {
    AssocsDrop(s.assocs, a, r);
    assert a in AssocsOf(s.assocs, s.assocs[a].rport);
    hide AssocsOf;
  }

  lemma {:induction false} EndLastKeepsInv(s: State, a: nat, c: nat)
    requires Inv(s) && a in s.assocs && s.assocs[a].conns == [c] && c in s.assocs[a].conn && s.assocs[a].rport in s.rports
    ensures Inv(EndAssoc(s, a, Ids(s.assocs[a].delCbs) + s.assocs[a].conn[c].delCbs))
  {
    var all := Ids(s.assocs[a].delCbs) + s.assocs[a].conn[c].delCbs;
    hide CallbacksOk, CountsOk, AssocOk, ItCount, Ids, MarkRan;
    EndAssocCallbacks(s, EndAssoc(s, a, all), a, c);
    EndAssocCounts(s, a, all);
  }

  lemma {:induction false} EndOtherKeepsInv(s: State, a: nat, c: nat)
    requires Inv(s) && a in s.assocs && c in s.assocs[a].conns && c in s.assocs[a].conn && s.assocs[a].rport in s.rports
    requires AssocOk(s.assocs[a]) && DelConnection(s.assocs[a], c).connCount != 0 && AssocOk(DelConnection(s.assocs[a], c))
    ensures Inv(EndConn(s, a, c))
  {
    var t := EndConn(s, a, c);
    hide CallbacksOk, CountsOk, AssocOk, ItCount, MarkRan;
    EndConnCallbacks(s, t, a, c);
    CountsPut(s, t, a, DelConnection(s.assocs[a], c));
  }

  lemma {:induction false} EndConnKeepsInv(s: State, a: nat, c: nat)
    requires Inv(s) && a in s.assocs && c in s.assocs[a].conns
    ensures c in s.assocs[a].conn && s.assocs[a].rport in s.rports && Inv(EndConn(s, a, c))
  {
    var x := s.assocs[a];
    assert AssocOk(x) && ItOk(s, a);
    DelConnectionOk(x, c);
    assert |x.conns| == 1 ==> x.conns == [c];
    hide Inv;
    if DelConnection(x, c).connCount != 0 {
      EndOtherKeepsInv(s, a, c);
    } else {
      EndLastKeepsInv(s, a, c);
    }
  }

  lemma {:induction false} AssignQueueKeepsInv(s: State, a: nat, c: nat)
    requires Inv(s) && Enabled(s, AssignQueue(a, c))
    ensures Inv(Served(s, AssignQueue(a, c)))
  {
    var x := WithQueue(s.assocs[a], c);
    WithQueueOk(s.assocs[a], c);
    CountsPut(s, Served(s, AssignQueue(a, c)), a, x);
    hide CountsOk, CallbacksOk, AssocOk;
    QueueKeepsCallbacks(s, Served(s, AssignQueue(a, c)), a, c);
  }

  lemma {:induction false} WithQueueOk(x: Assoc, c: nat)
    requires AssocOk(x) && c in x.conn
    ensures AssocOk(WithQueue(x, c))
  {}

  lemma {:induction false} QueueKeepsCallbacks(s: State, s': State, a: nat, c: nat)
    requires CallbacksOk(s) && ConnInUse(s, a, c) && s' == s.(assocs := s.assocs[a := WithQueue(s.assocs[a], c)])
    ensures CallbacksOk(s')
  {
    assert ChainsOk(s, a);
    hide ChainsOk;
    forall i | i in s'.place && (s'.place[i].AtConn? || s'.place[i].AtAssoc?) && s'.place[i].a == a ensures PlaceOk(s', i) {
      assert PlaceOk(s, i);
    }
    QueueKeepsChains(s, s', a, c);
    CallbacksPut(s, s', a, WithQueue(s.assocs[a], c), None);
  }

  lemma {:induction false} QueueKeepsChains(s: State, s': State, a: nat, c: nat)
    requires ConnInUse(s, a, c) && ChainsOk(s, a) && s' == s.(assocs := s.assocs[a := WithQueue(s.assocs[a], c)])
    ensures ChainsOk(s', a)
  {
    forall d | d in s'.assocs[a].conns ensures ConnChainOk(s', a, d) {
      assert ConnChainOk(s, a, d);
    }
  }

  lemma {:induction false} ServedKeepsInv(s: State, e: Event)
    requires Inv(s) && Enabled(s, e)
    ensures Inv(Served(s, e))
  {
    match e {
      case CreateAssoc(a, rport, total) =>
        if Usable(s, rport) {
          CreateAssocKeepsInv(s, a, rport, total);
        }
      case CreateConn(a) => CreateConnKeepsInv(s, a);
      case AssignQueue(a, c) => AssignQueueKeepsInv(s, a, c);
      case DeleteConnection(a, c, cb) => DeleteConnectionKeepsInv(s, a, c, cb);
      case DeleteAssociation(a, cb) => DeleteAssociationKeepsInv(s, a, cb);
      case ItDelete(rport, targets, cbs) =>
        if Usable(s, rport) {
          ItDeleteKeepsInv(s, rport, targets, cbs);
        }
      case DelConnDone(a, c) => EndConnKeepsInv(s, a, c);
      case AddConnFailed(a, c) => EndConnKeepsInv(s, a, c);
    }
  }

  lemma {:induction false} StepKeepsInv(s: State, e: Event)
    requires Inv(s) && Enabled(s, e)
    ensures Inv(Step(s, e))
  {
    ServedKeepsInv(s, e);
    CrashKeepsInv(s);
    hide Inv, Served, UsesNullQueue;
  }

  lemma {:induction false} CrashKeepsInv(s: State)
    requires Inv(s)
    ensures Inv(s.(crashed := true))
  {
    var t := s.(crashed := true);
    SameCallbacks(s, t);
    hide CallbacksOk, AssocOk, ItCount;
    forall r | r in t.rports ensures RportOk(t, r) {
      assert RportOk(s, r);
    }
    forall a | a in t.assocs ensures ItOk(t, a) {
      assert ItOk(s, a);
    }
  }

  // Runs.

  ghost predicate Admissible(s: State, es: seq<Event>)
    decreases |es|
  {
    es == [] || (Inv(s) && Enabled(s, es[0]) && Admissible(Step(s, es[0]), es[1..]))
  }

  ghost function Run(s: State, es: seq<Event>): State
    requires Admissible(s, es)
    decreases |es|
  {
    if es == [] then s else Run(Step(s, es[0]), es[1..])
  }

  ghost predicate Initial(s: State) {
    && s.assocs == map[] && s.assocCount == 0 && s.place == map[] && s.ran == [] && !s.crashed
    && forall r :: r in s.rports ==> s.rports[r] == Rport(0, Created, 0)
  }

  lemma {:induction false} InitialInv(s: State)
    requires Initial(s)
    ensures Inv(s)
  {
    forall r | r in s.rports ensures RportOk(s, r) {
      assert AssocsOf(s.assocs, r) == {};
    }
  }

  lemma {:induction false} RunKeepsInv(s: State, es: seq<Event>)
    requires Inv(s) && Admissible(s, es)
    ensures Inv(Run(s, es))
    decreases |es|
  {
    if es != [] {
      StepKeepsInv(s, es[0]);
      hide Step, Inv;
      RunKeepsInv(Step(s, es[0]), es[1..]);
    }
  }

  /** Over every run of a fresh port: the number of associations is exact, a remote port
      counts its own and is freed, once, exactly when its I_T delete has begun and its last
      association is gone. */
  lemma {:induction false} RportFreedExactlyOnce(s: State, es: seq<Event>, r: nat)
    requires Initial(s) && Admissible(s, es)
    ensures Run(s, es).assocCount == |Run(s, es).assocs|
    ensures var t := Run(s, es); r in t.rports ==>
              && t.rports[r].assocCount == |AssocsOf(t.assocs, r)|
              && t.rports[r].freed == if t.rports[r].state == ToBeDeleted && AssocsOf(t.assocs, r) == {} then 1 else 0
  {
    RunFromInitial(s, es);
    hide Run, Admissible, CallbacksOk, AssocOk, ItOk;
    var t := Run(s, es);
    assert r in t.rports ==> RportOk(t, r);
  }

  /** Over every run: an association's connections partition its preallocated set, its count
      is exact, and a connection in use has had at most one delete sent, exactly one if it is
      marked or its association is. */
  lemma {:induction false} ConnectionsDeletedOnce(s: State, es: seq<Event>, a: nat, c: nat)
    requires Initial(s) && Admissible(s, es) && a in Run(s, es).assocs && c in Run(s, es).assocs[a].conns
    ensures var x := Run(s, es).assocs[a];
            && Partition(x.conns, x.avail, x.total) && x.connCount == |x.conns| && c in x.conn
            && x.conn[c].sent == (if x.toBeDeleted || x.conn[c].state == ToBeDeleted then 1 else 0)
  {
    RunFromInitial(s, es);
    hide Run, Admissible, CallbacksOk, RportOk, ItOk;
    assert AssocOk(Run(s, es).assocs[a]);
  }

  /** Over every run: a registered callback has run exactly once, or is still chained to a
      connection in use or to a live association, once; nothing else ever runs. */
  lemma {:induction false} CallbacksRunExactlyOnce(s: State, es: seq<Event>, i: nat)
    requires Initial(s) && Admissible(s, es)
    ensures Distinct(Run(s, es).ran)
    ensures i in Run(s, es).ran <==> i in Run(s, es).place && Run(s, es).place[i] == Ran
    ensures var t := Run(s, es); i in t.place && i !in t.ran ==>
              match t.place[i]
              case AtConn(a, c) => a in t.assocs && c in t.assocs[a].conns && c in t.assocs[a].conn && i in t.assocs[a].conn[c].delCbs
              case AtAssoc(a) => a in t.assocs && i in Ids(t.assocs[a].delCbs)
              case Ran => false
  {
    RunFromInitial(s, es);
    hide Run, Admissible, CountsOk, ChainsOk;
    var t := Run(s, es);
    assert i in t.place ==> PlaceOk(t, i);
  }

  lemma {:induction false} RunFromInitial(s: State, es: seq<Event>)
    requires Initial(s) && Admissible(s, es)
    ensures Inv(Run(s, es))
  {
    InitialInv(s);
    RunKeepsInv(s, es);
  }

  /** An association that is being deleted gets no new connection, and every connection it
      still has is on its way out: each completion brings it one closer to its end. */
  lemma {:induction false} DeletedAssocDrains(s: State, a: nat, c: nat)
    requires Inv(s) && !s.crashed && a in s.assocs && s.assocs[a].toBeDeleted && c in s.assocs[a].conns
    ensures Enabled(s, DelConnDone(a, c)) && Step(s, CreateConn(a)) == s
    ensures var t := Step(s, DelConnDone(a, c));
            if |s.assocs[a].conns| == 1 then a !in t.assocs
            else a in t.assocs && t.assocs[a].toBeDeleted && |t.assocs[a].conns| == |s.assocs[a].conns| - 1
  {
    hide CallbacksOk, RportOk, ItOk;
    var x := s.assocs[a];
    assert AssocOk(x) && ConnOk(x.conn[c]);
    DelConnectionOk(x, c);
  }

  /** Every callback chained to an association has run by the time it is gone, those of the
      association before those of its last connection. */
  lemma {:induction false} LastConnectionRunsAll(s: State, a: nat, c: nat)
    requires Inv(s) && a in s.assocs && s.assocs[a].conns == [c] && Enabled(s, DelConnDone(a, c))
    ensures Step(s, DelConnDone(a, c)).ran == s.ran + Ids(s.assocs[a].delCbs) + s.assocs[a].conn[c].delCbs
    ensures Step(s, DelConnDone(a, c)).assocCount == s.assocCount - 1
  {
    hide CallbacksOk, RportOk, ItOk, ItCount;
    assert AssocOk(s.assocs[a]);
    DelConnectionOk(s.assocs[a], c);
    assert s.ran + (Ids(s.assocs[a].delCbs) + s.assocs[a].conn[c].delCbs)
        == s.ran + Ids(s.assocs[a].delCbs) + s.assocs[a].conn[c].delCbs;
  }

  /** An association is created if and only if its remote port is known and not being
      deleted. It has one connection, and nothing else changes but the two counts. */
  lemma {:induction false} AssociationCreatedIff(s: State, a: nat, rport: nat, total: nat)
    requires Inv(s) && Enabled(s, CreateAssoc(a, rport, total))
    ensures var t := Step(s, CreateAssoc(a, rport, total));
            if rport in s.rports && s.rports[rport].state == Created
            then && t.assocs.Keys == s.assocs.Keys + {a} && t.assocs == s.assocs[a := t.assocs[a]]
                 && t.assocCount == s.assocCount + 1
                 && t.rports == s.rports[rport := s.rports[rport].(assocCount := s.rports[rport].assocCount + 1)]
                 && t.place == s.place && t.ran == s.ran && !t.crashed
                 && t.assocs[a].rport == rport && t.assocs[a].total == total && t.assocs[a].conns == [0]
                 && t.assocs[a].conn == map[0 := Conn(Created, [], 0, false)] && !t.assocs[a].toBeDeleted && t.assocs[a].delCbs == []
            else t == s
  {
    hide CallbacksOk, CountsOk;
    assert !UsesNullQueue(s, CreateAssoc(a, rport, total));
  }

  /** A connection is created if and only if its association is not being deleted and has
      fewer connections than were allocated. It is one that was not in use, starts afresh
      and goes to the end; nothing else changes. */
  lemma {:induction false} ConnectionCreatedIff(s: State, a: nat)
    requires Inv(s) && Enabled(s, CreateConn(a))
    ensures var x, t := s.assocs[a], Step(s, CreateConn(a));
            if !x.toBeDeleted && |x.conns| < x.total
            then && a in t.assocs && t == s.(assocs := s.assocs[a := t.assocs[a]])
                 && x.avail != [] && x.avail[0] < x.total && x.avail[0] !in x.conns
                 && t.assocs[a].conns == x.conns + [x.avail[0]] && t.assocs[a].avail == x.avail[1..]
                 && t.assocs[a].conn == x.conn[x.avail[0] := Conn(Created, [], 0, false)]
                 && t.assocs[a].connCount == |x.conns| + 1 && !t.assocs[a].toBeDeleted
                 && t.assocs[a].rport == x.rport && t.assocs[a].total == x.total && t.assocs[a].delCbs == x.delCbs
            else t == s
  {
    hide CallbacksOk, RportOk, ItOk;
    var x := s.assocs[a];
    assert AssocOk(x);
    if x.connCount < x.total {
      AvailIfRoom(x);
      assert x.avail[0] in x.avail;
    }
  }

  /** A request to delete a connection chains its callback behind those already there and
      tells the poller if it is the first. */
  lemma {:induction false} DeleteIsChained(s: State, a: nat, c: nat, cb: nat)
    requires Inv(s) && Enabled(s, DeleteConnection(a, c, cb)) && s.assocs[a].conn[c].queued
    ensures var was, t := s.assocs[a].conn[c], Step(s, DeleteConnection(a, c, cb));
            && t == s.(assocs := s.assocs[a := s.assocs[a].(conn := t.assocs[a].conn)], place := s.place[cb := AtConn(a, c)])
            && t.assocs[a].conn == s.assocs[a].conn[c := Conn(ToBeDeleted, was.delCbs + [cb], 1, true)]
  {
    hide CallbacksOk, RportOk, ItOk, Partition;
    assert AssocOk(s.assocs[a]) && ConnOk(s.assocs[a].conn[c]);
  }

  /** A request to delete an association chains its callback behind those already there and
      tells the poller of every connection in use that was not told. */
  lemma {:induction false} AssocDeleteIsChained(s: State, a: nat, cb: nat)
    requires Inv(s) && Enabled(s, DeleteAssociation(a, cb)) && Queued(s.assocs[a])
    ensures var x, t := s.assocs[a], Step(s, DeleteAssociation(a, cb));
            && a in t.assocs && t == s.(assocs := s.assocs[a := t.assocs[a]], place := s.place[cb := AtAssoc(a)])
            && t.assocs[a] == x.(toBeDeleted := true, delCbs := x.delCbs + [Cb(cb, false)], conn := t.assocs[a].conn)
            && t.assocs[a].conn.Keys == x.conn.Keys
            && forall c :: c in x.conn ==>
                 t.assocs[a].conn[c] == if c in x.conns then Conn(ToBeDeleted, x.conn[c].delCbs, 1, x.conn[c].queued) else x.conn[c]
  {
    hide CallbacksOk, RportOk, ItOk, Partition;
    var x := s.assocs[a];
    assert AssocOk(x);
    forall c | c in x.conns ensures ConnOk(x.conn[c]) {}
  }

  /** A deleted connection, unless it is the last one, goes back to the end of the pool, and
      its callbacks run in the order they were chained. */
  lemma {:induction false} DeletedConnReturns(s: State, a: nat, c: nat)
    requires Inv(s) && Enabled(s, DelConnDone(a, c)) && |s.assocs[a].conns| > 1
    ensures var x, t := s.assocs[a], Step(s, DelConnDone(a, c));
            && t.ran == s.ran + x.conn[c].delCbs && a in t.assocs && t.rports == s.rports && t.assocCount == s.assocCount
            && t.assocs == s.assocs[a := t.assocs[a]] && t.assocs[a].avail == x.avail + [c]
            && c in t.assocs[a].conn && t.assocs[a].conn[c] == x.conn[c].(state := Zombie, delCbs := [])
            && |t.assocs[a].conns| == |x.conns| - 1 && (forall k :: k in t.assocs[a].conns <==> k in x.conns && k != c)
            && (forall k :: k in x.conn && k != c ==> k in t.assocs[a].conn && t.assocs[a].conn[k] == x.conn[k])
            && t.assocs[a].delCbs == x.delCbs && t.assocs[a].toBeDeleted == x.toBeDeleted
  {
    hide CallbacksOk, RportOk, ItOk;
    assert AssocOk(s.assocs[a]);
    WithoutHas(s.assocs[a].conns, c);
  }

  /** A connection that is given its hardware queue has it from then on; nothing else changes. */
  lemma {:induction false} QueueIsAssigned(s: State, a: nat, c: nat)
    requires Inv(s) && Enabled(s, AssignQueue(a, c))
    ensures var x := s.assocs[a];
            Step(s, AssignQueue(a, c)) == s.(assocs := s.assocs[a := x.(conn := x.conn[c := x.conn[c].(queued := true)])])
  {
    hide CallbacksOk, CountsOk;
  }

  lemma {:induction false} Untargeted(s: State, targets: seq<nat>, cbs: seq<nat>, a: nat, cb: nat)
    requires |targets| == |cbs| && forall b :: b in targets ==> b in s.assocs && ConnsKnown(s.assocs[b])
    ensures var t := DeleteTargets(s, targets, cbs);
            && t.assocs.Keys == s.assocs.Keys && (a !in targets && a in s.assocs ==> t.assocs[a] == s.assocs[a])
            && (cb !in cbs ==> (cb in t.place <==> cb in s.place) && (cb in s.place ==> t.place[cb] == s.place[cb]))
    decreases |targets|
  {
    if targets != [] {
      hide DeleteAssoc;
      Untargeted(RegisterAssocDelete(s, targets[0], Cb(cbs[0], true)), targets[1..], cbs[1..], a, cb);
    }
  }

  lemma {:induction false} TargetAt(s: State, targets: seq<nat>, cbs: seq<nat>, i: nat)
    requires |targets| == |cbs| && Distinct(targets) && Distinct(cbs) && i < |targets|
    requires forall a :: a in targets ==> a in s.assocs && ConnsKnown(s.assocs[a])
    ensures var t := DeleteTargets(s, targets, cbs);
            && targets[i] in t.assocs && t.assocs[targets[i]] == DeleteAssoc(s.assocs[targets[i]], Cb(cbs[i], true))
            && cbs[i] in t.place && t.place[cbs[i]] == AtAssoc(targets[i])
    decreases i
  {
    hide DeleteAssoc;
    var next := RegisterAssocDelete(s, targets[0], Cb(cbs[0], true));
    if i == 0 {
      assert targets[0] !in targets[1..] && cbs[0] !in cbs[1..];
      Untargeted(next, targets[1..], cbs[1..], targets[0], cbs[0]);
    } else {
      TargetAt(next, targets[1..], cbs[1..], i - 1);
    }
  }

  /** An I_T delete is accepted if and only if its remote port is known and not being deleted. It
      marks the port, which is freed at once if it has no association. */
  lemma {:induction false} ItDeleteMarks(s: State, rport: nat, targets: seq<nat>, cbs: seq<nat>)
    requires Inv(s) && Enabled(s, ItDelete(rport, targets, cbs)) && !UsesNullQueue(s, ItDelete(rport, targets, cbs))
    ensures var accepted := rport in s.rports && s.rports[rport].state == Created;
            var t := Step(s, ItDelete(rport, targets, cbs));
            && ItDeleteResult(s, rport) == (if accepted then 0 else -ENODEV)
            && if !accepted then t == s
               else rport in t.rports && t.rports[rport].state == ToBeDeleted && (targets == [] ==> t.rports[rport].freed == 1)
  {
    if Usable(s, rport) {
      ItDeleteKeepsInv(s, rport, targets, cbs);
      SameRports(Begun(s, rport, targets == []), targets, cbs);
      assert RportOk(s, rport);
      assert forall a :: a in AssocsOf(s.assocs, rport) ==> a in targets;
      assert targets == [] ==> AssocsOf(s.assocs, rport) == {};
    }
    hide Inv, CountsOk, DeleteTargets, UsesNullQueue;
  }

  /** It deletes each association of the port, its `i`-th one with its `i`-th callback, chained
      behind those already there; other associations are not touched. */
  lemma {:induction false} ItDeleteLeadsTo(s: State, rport: nat, targets: seq<nat>, cbs: seq<nat>, i: nat, b: nat)
    requires Inv(s) && Enabled(s, ItDelete(rport, targets, cbs)) && !UsesNullQueue(s, ItDelete(rport, targets, cbs))
    requires Usable(s, rport) && i < |targets|
    ensures var t := Step(s, ItDelete(rport, targets, cbs));
            && targets[i] in s.assocs && targets[i] in t.assocs && t.assocs[targets[i]].toBeDeleted
            && t.assocs[targets[i]].delCbs == s.assocs[targets[i]].delCbs + [Cb(cbs[i], true)]
            && cbs[i] in t.place && t.place[cbs[i]] == AtAssoc(targets[i])
            && (b in s.assocs && s.assocs[b].rport == rport ==> b in targets)
            && (b in s.assocs && s.assocs[b].rport != rport ==> b in t.assocs && t.assocs[b] == s.assocs[b])
  {
    var begun := Begun(s, rport, targets == []);
    ItDeleteKeepsInv(s, rport, targets, cbs);
    TargetAt(begun, targets, cbs, i);
    Untargeted(begun, targets, cbs, b, 0);
    assert b in s.assocs ==> (b in targets <==> b in AssocsOf(s.assocs, rport));
    hide Inv, CountsOk, DeleteTargets, UsesNullQueue;
  }

  /** Once an I_T delete has begun, whatever happens next, every further one is answered
      -ENODEV, and neither it nor a request for a new association changes anything. */
  lemma {:induction false} SecondItDeleteRefused(s: State, es: seq<Event>, rport: nat, again: Event)
    requires Inv(s) && Admissible(s, es) && rport in s.rports && s.rports[rport].state == ToBeDeleted
    requires again.ItDelete? || again.CreateAssoc?
    requires again.rport == rport && Enabled(Run(s, es), again)
    ensures ItDeleteResult(Run(s, es), rport) == -ENODEV
    ensures Inv(Run(s, es)) && Step(Run(s, es), again) == Run(s, es)
  {
    RunKeepsInv(s, es);
    StaysToBeDeleted(s, es, rport);
    hide Run, Inv, Admissible;
  }

  lemma {:induction false} StaysToBeDeleted(s: State, es: seq<Event>, rport: nat)
    requires Inv(s) && Admissible(s, es) && rport in s.rports && s.rports[rport].state == ToBeDeleted
    ensures rport in Run(s, es).rports && Run(s, es).rports[rport].state == ToBeDeleted
    decreases |es|
  {
    if es != [] {
      StepKeepsInv(s, es[0]);
      StepStaysToBeDeleted(s, es[0], rport);
      hide Step, Inv;
      StaysToBeDeleted(Step(s, es[0]), es[1..], rport);
    }
  }

  lemma {:induction false} StepStaysToBeDeleted(s: State, e: Event, rport: nat)
    requires Inv(s) && Enabled(s, e) && rport in s.rports && s.rports[rport].state == ToBeDeleted
    ensures rport in Step(s, e).rports && Step(s, e).rports[rport].state == ToBeDeleted
  {
    hide CallbacksOk, RportOk, ItOk, AssocOk, MarkRan, DelConnection, DeleteAssoc, DeleteTargets, ItCount;
    if e.ItDelete? && Usable(s, e.rport) {
      ItDeleteKeepsInv(s, e.rport, e.targets, e.cbs);
      SameRports(Begun(s, e.rport, e.targets == []), e.targets, e.cbs);
    }
  }

  lemma {:induction false} SameRports(s: State, targets: seq<nat>, cbs: seq<nat>)
    requires |targets| == |cbs| && forall a :: a in targets ==> a in s.assocs && ConnsKnown(s.assocs[a])
    ensures DeleteTargets(s, targets, cbs).rports == s.rports && DeleteTargets(s, targets, cbs).crashed == s.crashed
    decreases |targets|
  {
    if targets != [] {
      SameRports(RegisterAssocDelete(s, targets[0], Cb(cbs[0], true)), targets[1..], cbs[1..]);
    }
  }

  // Hardware queues.

  /** Whoever is marked for deletion has a queue. */
  predicate MarkedQueued(x: Assoc) {
    forall c :: c in x.conns && c in x.conn && x.conn[c].state == ToBeDeleted ==> x.conn[c].queued
  }

  ghost predicate QueuesOk(s: State) {
    forall a :: a in s.assocs ==> MarkedQueued(s.assocs[a])
  }

  lemma {:induction false} TargetsKeepQueues(s: State, targets: seq<nat>, cbs: seq<nat>)
    requires |targets| == |cbs| && forall a :: a in targets ==> a in s.assocs && ConnsKnown(s.assocs[a]) && Queued(s.assocs[a])
    requires QueuesOk(s)
    ensures QueuesOk(DeleteTargets(s, targets, cbs))
    decreases |targets|
  {
    if targets != [] {
      var next := RegisterAssocDelete(s, targets[0], Cb(cbs[0], true));
      DeleteKeepsQueued(s.assocs[targets[0]], Cb(cbs[0], true));
      hide DeleteAssoc, Queued, MarkedQueued, ConnsKnown;
      TargetsKeepQueues(next, targets[1..], cbs[1..]);
    }
  }

  lemma {:induction false} DeleteKeepsQueued(x: Assoc, cb: Cb)
    requires ConnsKnown(x) && Queued(x)
    ensures Queued(DeleteAssoc(x, cb)) && MarkedQueued(DeleteAssoc(x, cb))
  {}

  lemma {:induction false} EndKeepsMarked(x: Assoc, c: nat)
    requires MarkedQueued(x) && AssocOk(x) && c in x.conns
    ensures c in x.conn && MarkedQueued(DelConnection(x, c))
  {
    WithoutHas(x.conns, c);
  }

  lemma {:induction false} StepKeepsQueues(s: State, e: Event)
    requires Inv(s) && Enabled(s, e) && QueuesOk(s)
    ensures QueuesOk(Step(s, e))
  {
    hide CallbacksOk, CountsOk, Served;
    if !UsesNullQueue(s, e) {
      match e {
        case ItDelete(rport, targets, cbs) => DeletesKeepQueues(s, e);
        case DeleteAssociation(a, cb) => DeletesKeepQueues(s, e);
        case DelConnDone(a, c) => EndsKeepQueues(s, e);
        case AddConnFailed(a, c) => EndsKeepQueues(s, e);
        case _ => OtherKeepsQueues(s, e);
      }
    }
  }

  lemma {:induction false} DeletesKeepQueues(s: State, e: Event)
    requires Inv(s) && Enabled(s, e) && QueuesOk(s) && !UsesNullQueue(s, e) && (e.ItDelete? || e.DeleteAssociation?)
    ensures QueuesOk(Served(s, e))
  {
    if e.ItDelete? {
      if Usable(s, e.rport) {
        ItDeleteKeepsQueues(s, e.rport, e.targets, e.cbs);
      }
    } else {
      assert AssocOk(s.assocs[e.a]);
      DeleteKeepsQueued(s.assocs[e.a], Cb(e.cb, false));
    }
    hide CallbacksOk, RportOk, ItOk, AssocOk, DeleteAssoc, DeleteTargets, MarkedQueued, ItDeleteStep;
  }

  lemma {:induction false} EndsKeepQueues(s: State, e: Event)
    requires Inv(s) && Enabled(s, e) && QueuesOk(s) && (e.DelConnDone? || e.AddConnFailed?)
    ensures QueuesOk(Served(s, e))
  {
    assert Served(s, e) == EndConn(s, e.a, e.c);
    hide Served, CallbacksOk, RportOk, MarkRan, EndAssoc;
    EndKeepsQueues(s, e.a, e.c);
  }

  lemma {:induction false} EndKeepsQueues(s: State, a: nat, c: nat)
    requires CountsOk(s) && QueuesOk(s) && ConnInUse(s, a, c)
    ensures s.assocs[a].rport in s.rports && QueuesOk(EndConn(s, a, c))
  {
    assert AssocOk(s.assocs[a]) && ItOk(s, a);
    hide CountsOk, AssocOk, RportOk, EndConn, DelConnection, MarkedQueued;
    EndKeepsMarked(s.assocs[a], c);
    EndConnAssocs(s, a, c);
  }

  lemma {:induction false} EndConnAssocs(s: State, a: nat, c: nat)
    requires ConnInUse(s, a, c) && s.assocs[a].rport in s.rports
    ensures EndConn(s, a, c).assocs == s.assocs[a := DelConnection(s.assocs[a], c)] || EndConn(s, a, c).assocs == s.assocs - {a}
  {
    hide MarkRan, ItCount, Ids;
  }

  lemma {:induction false} ItDeleteKeepsQueues(s: State, rport: nat, targets: seq<nat>, cbs: seq<nat>)
    requires Inv(s) && QueuesOk(s) && Usable(s, rport) && ItTargets(s, rport, targets, cbs)
    requires forall a :: a in targets && a in s.assocs ==> Queued(s.assocs[a])
    ensures QueuesOk(ItDeleteAnswered(s, rport, targets, cbs))
  {
    ItDeleteKeepsInv(s, rport, targets, cbs);
    hide Inv, Queued, MarkedQueued;
    TargetsKeepQueues(Begun(s, rport, targets == []), targets, cbs);
  }

  lemma {:induction false} OtherKeepsQueues(s: State, e: Event)
    requires Inv(s) && Enabled(s, e) && QueuesOk(s) && !UsesNullQueue(s, e)
    requires !e.ItDelete? && !e.DeleteAssociation? && !e.DelConnDone? && !e.AddConnFailed?
    ensures QueuesOk(Served(s, e))
  {
    hide CallbacksOk, RportOk, ItOk, ItCount;
  }

  lemma {:induction false} RunKeepsQueues(s: State, es: seq<Event>)
    requires Inv(s) && QueuesOk(s) && Admissible(s, es)
    ensures Inv(Run(s, es)) && QueuesOk(Run(s, es))
    decreases |es|
  {
    if es != [] {
      StepKeepsInv(s, es[0]);
      StepKeepsQueues(s, es[0]);
      hide Step, Inv, QueuesOk;
      RunKeepsQueues(Step(s, es[0]), es[1..]);
    }
  }

  /** Over every run: a connection whose addition fails was never asked to be deleted, so that
      no callback of it is lost and no completion comes after its end. */
  lemma {:induction false} FailedAddFindsNoDelete(s: State, es: seq<Event>, a: nat, c: nat)
    requires Initial(s) && Admissible(s, es) && Enabled(Run(s, es), AddConnFailed(a, c))
    ensures var x := Run(s, es).assocs[a].conn[c]; x.state == Created && x.delCbs == [] && x.sent == 0
  {
    InitialInv(s);
    RunKeepsQueues(s, es);
    hide Run, Admissible, CallbacksOk, RportOk, ItOk;
    assert AssocOk(Run(s, es).assocs[a]) && MarkedQueued(Run(s, es).assocs[a]);
  }

  /** The delete `e` would mark connection `c` of association `a`, and tell its queue. */
  ghost predicate Marks(s: State, e: Event, a: nat, c: nat) {
    ConnInUse(s, a, c) && s.assocs[a].conn[c].state == Created &&
    match e
    case DeleteConnection(b, d, _) => b == a && d == c
    case DeleteAssociation(b, _) => b == a && !s.assocs[a].toBeDeleted
    case ItDelete(rport, targets, _) => Usable(s, rport) && a in targets && !s.assocs[a].toBeDeleted
    case _ => false
  }

  /** Over every run of a fresh port the code crashes in a step if and only if that is a delete
      reaching, for the first time, a connection whose queue has not been assigned yet. */
  lemma {:induction false} CrashesIff(s: State, es: seq<Event>, e: Event)
    requires Initial(s) && Admissible(s, es) && Enabled(Run(s, es), e)
    ensures Inv(Run(s, es))
    ensures Step(Run(s, es), e).crashed <==>
              exists a, c :: Marks(Run(s, es), e, a, c) && !Run(s, es).assocs[a].conn[c].queued
  {
    InitialInv(s);
    RunKeepsQueues(s, es);
    hide Run, Admissible;
    StepCrashesIff(Run(s, es), e);
  }

  lemma {:induction false} StepCrashesIff(s: State, e: Event)
    requires Inv(s) && QueuesOk(s) && Enabled(s, e)
    ensures UsesNullQueue(s, e) <==> exists a, c :: Marks(s, e, a, c) && !s.assocs[a].conn[c].queued
    ensures Step(s, e).crashed <==> UsesNullQueue(s, e)
  {
    ServedRuns(s, e);
    hide CallbacksOk, RportOk, ItOk, Partition, Served;
    match e {
      case DeleteConnection(a, c, _) =>
        assert AssocOk(s.assocs[a]) && MarkedQueued(s.assocs[a]);
        assert UsesNullQueue(s, e) ==> Marks(s, e, a, c);
      case DeleteAssociation(a, _) =>
        assert AssocOk(s.assocs[a]) && MarkedQueued(s.assocs[a]);
        UnqueuedIsMarked(s, e, a);
      case ItDelete(rport, targets, _) =>
        forall a | a in targets && a in s.assocs && Usable(s, rport)
          ensures !Queued(s.assocs[a]) <==> exists c :: Marks(s, e, a, c) && !s.assocs[a].conn[c].queued
        {
          assert AssocOk(s.assocs[a]) && MarkedQueued(s.assocs[a]);
          UnqueuedIsMarked(s, e, a);
        }
      case _ =>
    }
  }

  /** Serving an event crashes nothing. */
  lemma {:induction false} ServedRuns(s: State, e: Event)
    requires Inv(s) && Enabled(s, e)
    ensures !Served(s, e).crashed
  {
    hide CallbacksOk, RportOk, ItOk, AssocOk, MarkRan, DelConnection, DeleteAssoc, ItCount;
    if e.ItDelete? && Usable(s, e.rport) {
      ItDeleteKeepsInv(s, e.rport, e.targets, e.cbs);
      SameRports(Begun(s, e.rport, e.targets == []), e.targets, e.cbs);
    }
  }

  lemma {:induction false} UnqueuedIsMarked(s: State, e: Event, a: nat)
    requires a in s.assocs && AssocOk(s.assocs[a]) && MarkedQueued(s.assocs[a])
    requires (e.DeleteAssociation? && e.a == a) || (e.ItDelete? && Usable(s, e.rport) && a in e.targets)
    ensures !Queued(s.assocs[a]) <==> exists c :: Marks(s, e, a, c) && !s.assocs[a].conn[c].queued
  {
    UnqueuedIsCreated(s.assocs[a]);
    hide AssocOk, MarkedQueued;
    if c :| c in s.assocs[a].conns && c in s.assocs[a].conn && !s.assocs[a].conn[c].queued {
      assert Marks(s, e, a, c);
    }
  }

  lemma {:induction false} UnqueuedIsCreated(x: Assoc)
    requires AssocOk(x) && MarkedQueued(x)
    ensures forall c :: c in x.conns && c in x.conn && !x.conn[c].queued ==> x.conn[c].state == Created && !x.toBeDeleted
  {
    hide Partition;
    forall c | c in x.conns && c in x.conn && !x.conn[c].queued ensures x.conn[c].state == Created && !x.toBeDeleted {
      assert ConnOk(x.conn[c]);
    }
  }

  /** An association that is deleted before its first connection has a queue. */
  lemma {:induction false} EarlyDeleteCrashes(s: State, rport: nat, total: nat, cb: nat)
    requires Initial(s) && rport in s.rports && total > 0
    ensures var es := [CreateAssoc(0, rport, total), DeleteAssociation(0, cb)];
            Admissible(s, es) && Run(s, es).crashed
  {
    InitialInv(s);
    var e, d := CreateAssoc(0, rport, total), DeleteAssociation(0, cb);
    StepKeepsInv(s, e);
    var s1 := Step(s, e);
    assert 0 in s1.assocs && s1.assocs[0] == NewAssoc(rport, total);
    assert !Queued(s1.assocs[0]) by {
      assert 0 in s1.assocs[0].conns;
    }
    hide CallbacksOk, CountsOk;
    var s2 := Step(s1, d);
    assert Admissible(s2, []) && Run(s2, []) == s2;
    assert [d][1..] == [] && Admissible(s1, [d]) && Run(s1, [d]) == s2;
    assert [e, d][1..] == [d];
  }

  // The code itself.

  class FcAssociation {
    const rport: nat
    const total: nat
    var fcConns: seq<nat>
    var availFcConns: seq<nat>
    var conn: map<nat, Conn>
    var connCount: int
    var toBeDeleted: bool
    var delCbs: seq<Cb>

    /** `nvmf_fc_ls_new_association` with `nvmf_fc_ls_alloc_connections`, then its first connection. */
    constructor (rport: nat, total: nat)
      requires total > 0
      ensures Abs() == NewAssoc(rport, total)
    {
      this.rport, this.total := rport, total;
      fcConns, availFcConns, conn, connCount := [], Iota(0, total), map[], 0;
      toBeDeleted, delCbs := false, [];
      new;
      assert availFcConns == [0] + Iota(1, total);
      NewConnection();
    }

    function Abs(): Assoc
      reads this
    {
      Assoc(rport, total, fcConns, availFcConns, conn, connCount, toBeDeleted, delCbs)
    }

    method NewConnection()
      requires availFcConns != []
      modifies this
      ensures Abs() == NewConn(old(Abs()))
    {
      var c := availFcConns[0];
      availFcConns := availFcConns[1..];
      conn := conn[c := Conn(Created, [], 0, false)];
      fcConns := fcConns + [c];
      connCount := connCount + 1;
    }

    /** `nvmf_fc_ls_poller_delete_conn`: whether a DEL_CONNECTION is sent. */
    method PollerDeleteConn(c: nat, cb: Option<nat>) returns (sends: bool)
      requires c in conn
      modifies this`conn
      ensures Abs() == DeleteConn(old(Abs()), c, cb)
      ensures sends <==> old(conn)[c].state == Created
    {
      var fcConn := conn[c];
      if cb.Some? {
        fcConn := fcConn.(delCbs := fcConn.delCbs + [cb.value]);
      }
      sends := fcConn.state == Created;
      if sends {
        fcConn := fcConn.(state := ToBeDeleted, sent := fcConn.sent + 1);
      }
      conn := conn[c := fcConn];
    }

    /** `_nvmf_fc_delete_association`. */
    method DeleteAssociation(cb: Cb)
      requires AssocOk(Abs())
      modifies this
      ensures Abs() == DeleteAssoc(old(Abs()), cb) && AssocOk(Abs())
    {
      DeleteAssocOk(Abs(), cb);
      delCbs := delCbs + [cb];
      if toBeDeleted {
        return;
      }
      toBeDeleted := true;
      for i := 0 to |fcConns|
        invariant fcConns == old(fcConns) && availFcConns == old(availFcConns) && connCount == old(connCount)
        invariant toBeDeleted && delCbs == old(delCbs) + [cb] && conn.Keys == old(conn).Keys
        invariant forall c :: c in conn ==>
          conn[c] == if c in fcConns[..i] then RequestDelete(old(conn)[c], None) else old(conn)[c]
      {
        assert fcConns[i] !in fcConns[..i];
        assert fcConns[..i + 1] == fcConns[..i] + [fcConns[i]];
        var _ := PollerDeleteConn(fcConns[i], None);
      }
      assert fcConns[..|fcConns|] == fcConns;
      assert conn == DeleteConns(old(conn), fcConns);
    }

    /** The connection's part of `nvmf_fc_del_connection`: whether it was the last one. */
    method ReleaseConnection(c: nat) returns (last: bool)
      requires AssocOk(Abs()) && c in fcConns
      modifies this
      ensures Abs() == DelConnection(old(Abs()), c)
      ensures last <==> old(fcConns) == [c]
      ensures !last ==> AssocOk(Abs())
    {
      DelConnectionOk(Abs(), c);
      fcConns := Without(fcConns, c);
      availFcConns := availFcConns + [c];
      conn := conn[c := conn[c].(state := Zombie, delCbs := [])];
      connCount := connCount - 1;
      last := connCount == 0;
      assert last ==> old(fcConns)[0] == c;
    }
  }
}
