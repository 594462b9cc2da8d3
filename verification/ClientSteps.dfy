/** What the requests of one client operation do, step by step, in terms of the protocol state. */
module ClientSteps {
  import opened Wrappers
  import opened Ids
  import opened Shamir
  import opened Store
  import opened Ratchet
  import opened Custody
  import opened CustodySafety
  import opened Reconstruction
  import opened Refinement

  lemma Above(ids: set<nat>) returns (bound: nat)
    ensures forall i :: i in ids ==> i < bound
  {
    bound := 0;
    if ids != {} {
      var i :| i in ids;
      bound := Above(ids - {i});
      if bound <= i {
        bound := i + 1;
      }
      assert forall j :: j in ids ==> j == i || j in ids - {i};
    }
  }

  /** An operation id that is not in use. */
  lemma FreshId(w: World) returns (id: nat)
    ensures id !in w.ops
  {
    id := Above(w.ops.Keys);
  }

  // --- Asking the members of a manifest ---

  lemma ManifestFacts(dir: Directory, w: World, m: Manifest)
    requires Inv(dir, w) && ManifestOk(dir, w, m)
    ensures m.groupId in w.groups && GroupOk(dir, w.groups[m.groupId])
    ensures var g := w.groups[m.groupId];
      && m.groupToken == g.token && m.threshold == g.threshold && m.total == |g.holders| == |m.members|
      && 2 <= m.threshold <= m.total <= 255 && m.kind != ""
  {
    hide RowsOk, ManifestsOk, SlotsHeld, OpsOk, ShareOf;
  }

  lemma MemberFacts(dir: Directory, w: World, m: Manifest, i: nat)
    requires Inv(dir, w) && ManifestOk(dir, w, m) && i < |m.members|
    ensures m.groupId in w.groups && i < |w.groups[m.groupId].holders|
    ensures w.groups[m.groupId].holders[i] == m.members[i].nodeId
    ensures m.members[i].nodeId in w.stores && m.members[i].nodeId in dir
    ensures dir[m.members[i].nodeId] == m.members[i].endpoint
    ensures Slot(m.groupId, i) in w.live
    ensures forall n :: n in dir && dir[n] == m.members[i].endpoint ==> n == m.members[i].nodeId
  {
    hide RowsOk, ManifestsOk, SlotsHeld, OpsOk, ShareOf;
  }

  /** A member has a row for the group. */
  lemma MemberHasRow(dir: Directory, w: World, m: Manifest, i: nat) returns (f: Fragment)
    requires Inv(dir, w) && ManifestOk(dir, w, m) && i < |m.members|
    ensures m.members[i].nodeId in w.stores
    ensures f in w.stores[m.members[i].nodeId].fragments.Values && f.groupId == m.groupId
  {
    hide Inv, ManifestOk, ShareOf;
    MemberFacts(dir, w, m, i);
    DeliveredShareIsHeld(dir, w, m.groupId, i);
    var rows := w.stores[m.members[i].nodeId].fragments;
    var pid :| pid in rows && rows[pid].groupId == m.groupId;
    f := rows[pid];
  }

  /** Whatever row of the group it answers from, that row opens to its share. */
  lemma MemberRow(dir: Directory, w: World, m: Manifest, i: nat, f: Fragment)
    requires Inv(dir, w) && ManifestOk(dir, w, m) && i < |m.members| && m.members[i].nodeId in w.stores
    requires f in w.stores[m.members[i].nodeId].fragments.Values && f.groupId == m.groupId
    ensures m.groupId in w.groups && f.groupToken == m.groupToken && f.Open() == Some(ShareOf(w.groups[m.groupId], i))
    ensures f.pid in w.stores[m.members[i].nodeId].fragments && w.stores[m.members[i].nodeId].fragments[f.pid] == f
  {
    hide Inv, ShareOf, MembersOk;
    MemberFacts(dir, w, m, i);
    ManifestFacts(dir, w, m);
    DeliveredShareIsHeld(dir, w, m.groupId, i);
  }

  lemma OwnerEndpoint(dir: Directory, w: World, op: Op, i: nat)
    requires Inv(dir, w) && op.Collecting? && ManifestOk(dir, w, op.manifest) && i < |op.manifest.members|
    ensures op.manifest.members[i].nodeId in dir
    ensures dir[op.manifest.members[i].nodeId] == op.manifest.members[i].endpoint
  {
    hide Inv, ManifestOk;
    MemberFacts(dir, w, op.manifest, i);
  }

  /** The collecting step that records the answer of the next member. */
  lemma FetchStep(p: Primitives, dir: Directory, w: World, id: nat, m: Manifest, row: Option<Fragment>)
    requires Inv(dir, w) && id in w.ops && w.ops[id].Collecting? && w.ops[id].manifest == m
    requires |w.ops[id].fetched| < |m.members| && |Shares(w.ops[id].fetched)| < m.threshold
    requires row.Some? ==>
      var n := m.members[|w.ops[id].fetched|].nodeId;
      n in w.stores && row.value in w.stores[n].fragments.Values && row.value.groupId == m.groupId
    ensures m.groupId in w.groups
    ensures var a := Fetch(id, if row.None? then None else Some(row.value.pid));
      && Enabled(p, dir, w, a)
      && Next(p, dir, w, a) == w.(ops := w.ops[id := w.ops[id].(fetched := w.ops[id].fetched
           + [if row.None? then None else Some(ShareOf(w.groups[m.groupId], |w.ops[id].fetched|))])])
  {
    hide Inv, ManifestOk, ShareOf, Shares;
    var op := w.ops[id];
    TheOp(dir, w, id);
    var i := |op.fetched|;
    MemberFacts(dir, w, m, i);
    ManifestFacts(dir, w, m);
    if row.Some? {
      MemberRow(dir, w, m, i, row.value);
      assert AnswersFrom(dir, w, op, m.members[i], m.members[i].nodeId, row.value.pid) by {
        OwnerEndpoint(dir, w, op, i);
      }
      AnswerIsShare(dir, w, op, row.value.pid);
    }
  }

  /** Whether the exchange with the i-th member works; beyond the list it does not. */
  predicate Works(outcomes: seq<bool>, i: nat) {
    i < |outcomes| && outcomes[i]
  }

  /** The collection has asked the members before i; `works` says who answered. */
  ghost function Fetched(g: Group, works: seq<bool>, i: nat): (f: seq<Option<Bytes>>)
    ensures |f| == i
  {
    seq(i, k requires 0 <= k < i => if Works(works, k) then Some(ShareOf(g, k)) else None)
  }

  /** How many of the first n exchanges work. */
  function Working(outcomes: seq<bool>, n: nat): nat {
    if n == 0 then 0 else Working(outcomes, n - 1) + if Works(outcomes, n - 1) then 1 else 0
  }

  lemma {:induction false} WorkingCount(outcomes: seq<bool>, n: nat)
    ensures Working(outcomes, n) == |set k | 0 <= k < n && k < |outcomes| && outcomes[k]|
  {
    var answered := set k | 0 <= k < n && k < |outcomes| && outcomes[k];
    if n == 0 {
      assert answered == {};
    } else {
      WorkingCount(outcomes, n - 1);
      var before := set k | 0 <= k < n - 1 && k < |outcomes| && outcomes[k];
      assert answered == before + if Works(outcomes, n - 1) then {n - 1} else {};
    }
  }

  lemma {:induction false} WorkingMonotone(outcomes: seq<bool>, i: nat, n: nat)
    requires i <= n
    ensures Working(outcomes, i) <= Working(outcomes, n) <= Working(outcomes, i) + (n - i)
    decreases n
  {
    if i < n {
      WorkingMonotone(outcomes, i, n - 1);
    }
  }

  lemma FetchedNext(g: Group, works: seq<bool>, i: nat)
    ensures Fetched(g, works, i + 1) == Fetched(g, works, i) + [if Works(works, i) then Some(ShareOf(g, i)) else None]
    ensures Shares(Fetched(g, works, i + 1)) == Shares(Fetched(g, works, i))
      + if Works(works, i) then [ShareOf(g, i)] else []
  {
    hide ShareOf;
    assert Fetched(g, works, i + 1)[..i] == Fetched(g, works, i);
  }

  lemma {:induction false} FetchedCount(g: Group, works: seq<bool>, i: nat)
    ensures |Shares(Fetched(g, works, i))| == Working(works, i)
    decreases i
  {
    hide ShareOf;
    if i > 0 {
      FetchedCount(g, works, i - 1);
      FetchedNext(g, works, i - 1);
    }
  }

  /** The protocol state w with a collection by manifest m under way, i members asked. */
  ghost function CollectingAt(w: World, id: nat, owner: NodeId, m: Manifest, reshare: bool, works: seq<bool>,
                              i: nat): World
    requires m.groupId in w.groups
  {
    var g := w.groups[m.groupId];
    w.(ops := w.ops[id := Collecting(owner, m, Fetched(g, works, i), g.secret, reshare)])
  }

  lemma OpsDontMatter(dir: Directory, w: World, w': World, m: Manifest)
    requires w' == w.(ops := w'.ops) && ManifestOk(dir, w, m)
    ensures ManifestOk(dir, w', m)
  {
  }

  lemma BeginStep(p: Primitives, dir: Directory, w: World, id: nat, owner: NodeId, name: Name, reshare: bool,
                  works: seq<bool>)
    requires Inv(dir, w) && id !in w.ops && owner in w.stores && name in w.stores[owner].manifests
    ensures var m := w.stores[owner].manifests[name];
      var a := BeginCollecting(id, owner, name, reshare);
      && m.groupId in w.groups && m.secretName == name && ManifestOk(dir, w, m)
      && Enabled(p, dir, w, a) && Next(p, dir, w, a) == CollectingAt(w, id, owner, m, reshare, works, 0)
      && Next(p, dir, w, a).stores == w.stores && ManifestOk(dir, CollectingAt(w, id, owner, m, reshare, works, 0), m)
  {
    hide Inv, MembersOk, ManifestOk;
    TheManifest(dir, w, owner, name);
    ManifestGroup(dir, w, w.stores[owner].manifests[name]);
    OpsDontMatter(dir, w, CollectingAt(w, id, owner, w.stores[owner].manifests[name], reshare, works, 0),
                  w.stores[owner].manifests[name]);
  }

  lemma AskStep(p: Primitives, dir: Directory, w: World, id: nat, owner: NodeId, m: Manifest, reshare: bool,
                works: seq<bool>, i: nat, row: Option<Fragment>)
    requires m.groupId in w.groups && Inv(dir, CollectingAt(w, id, owner, m, reshare, works, i))
    requires i < |m.members| && Working(works, i) < m.threshold && (row.Some? <==> Works(works, i))
    requires row.Some? ==>
      var n := m.members[i].nodeId;
      n in w.stores && row.value in w.stores[n].fragments.Values && row.value.groupId == m.groupId
    ensures var a := Fetch(id, if row.None? then None else Some(row.value.pid));
      var w' := CollectingAt(w, id, owner, m, reshare, works, i);
      Enabled(p, dir, w', a) && Next(p, dir, w', a) == CollectingAt(w, id, owner, m, reshare, works, i + 1)
  {
    hide Inv, Enabled, Next, ShareOf, Fetched;
    var w' := CollectingAt(w, id, owner, m, reshare, works, i);
    FetchedCount(w.groups[m.groupId], works, i);
    FetchStep(p, dir, w', id, m, row);
    FetchedNext(w.groups[m.groupId], works, i);
  }

  /** A collection that was begun and is stopped leaves no trace. */
  lemma StopStep(p: Primitives, dir: Directory, w: World, id: nat, owner: NodeId, m: Manifest, reshare: bool,
                 works: seq<bool>, i: nat)
    requires m.groupId in w.groups && id !in w.ops
    ensures var w' := CollectingAt(w, id, owner, m, reshare, works, i);
      Enabled(p, dir, w', Stop(id)) && Next(p, dir, w', Stop(id)) == w && w'.stores == w.stores
  {
    var w' := CollectingAt(w, id, owner, m, reshare, works, i);
    assert w'.ops - {id} == w.ops;
  }

  lemma {:induction false} AnsweredCount(fetched: seq<Option<Bytes>>)
    ensures |Answered(fetched)| == |Shares(fetched)|
    decreases |fetched|
  {
    if fetched != [] {
      AnsweredCount(fetched[..|fetched| - 1]);
    }
  }

  /** When the loop ends with enough shares they combine to the secret. */
  lemma CollectedSecret(dir: Directory, w: World, id: nat, owner: NodeId, m: Manifest, reshare: bool, works: seq<bool>,
                        i: nat)
    requires m.groupId in w.groups && Inv(dir, CollectingAt(w, id, owner, m, reshare, works, i))
    requires Working(works, i) >= m.threshold
    ensures var g := w.groups[m.groupId];
      && Collected(m, Fetched(g, works, i)) && CollectResult(m, Fetched(g, works, i)) == Ok(g.secret)
      && Combined(Shares(Fetched(g, works, i))) == Ok(g.secret)
  {
    hide Inv, Combined, ShareOf, Fetched;
    var w' := CollectingAt(w, id, owner, m, reshare, works, i);
    TheOp(dir, w', id);
    FetchedCount(w.groups[m.groupId], works, i);
    assert Collected(m, Fetched(w.groups[m.groupId], works, i));
    AnsweredCount(Fetched(w.groups[m.groupId], works, i));
    CollectionReturnsSecret(dir, w', w'.ops[id]);
  }

  lemma FetchedStart(g: Group, works: seq<bool>)
    ensures Fetched(g, works, 0) == [] && Shares([]) == [] && Working(works, 0) == 0
  {
  }

  lemma SameManifestOk(dir: Directory, w: World, id: nat, owner: NodeId, m: Manifest, reshare: bool, works: seq<bool>,
                       i: nat, j: nat)
    requires m.groupId in w.groups && ManifestOk(dir, CollectingAt(w, id, owner, m, reshare, works, i), m)
    ensures ManifestOk(dir, CollectingAt(w, id, owner, m, reshare, works, j), m)
  {
    hide ManifestOk;
    OpsDontMatter(dir, CollectingAt(w, id, owner, m, reshare, works, i),
                  CollectingAt(w, id, owner, m, reshare, works, j), m);
  }

  // --- Sharing out ---

  /** The operation may start sharing out these bytes: it is new, or the collection that got them. */
  ghost predicate MayShare(w: World, id: nat, owner: NodeId, name: Name, data: Bytes, reshare: bool) {
    if !reshare then id !in w.ops
    else
      && id in w.ops && w.ops[id].Collecting? && w.ops[id].reshare
      && w.ops[id].owner == owner && w.ops[id].manifest.secretName == name
      && Collected(w.ops[id].manifest, w.ops[id].fetched)
      && CollectResult(w.ops[id].manifest, w.ops[id].fetched) == Ok(data)
  }

  ghost function SharingAction(id: nat, owner: NodeId, name: Name, kind: string, gid: GroupId, g: Group, pids: seq<Pid>,
                               reshare: bool): Action
  {
    if reshare then BeginResharing(id, kind, gid, g, pids) else BeginSharing(id, owner, name, kind, gid, g, pids)
  }

  /** No identifiers become known but these. */
  ghost predicate Drawn(w: World, w': World, groups: set<GroupId>, pids: set<Pid>) {
    w'.groups.Keys <= w.groups.Keys + groups && w'.slots.Keys <= w.slots.Keys + pids
  }

  lemma DrawnTrans(w: World, w1: World, w2: World, groups: set<GroupId>, pids: set<Pid>)
    requires Drawn(w, w1, groups, pids) && Drawn(w1, w2, groups, pids)
    ensures Drawn(w, w2, groups, pids)
  {
  }

  /** Nothing is committed, and the pending operations are these. */
  ghost predicate Pending(w: World, w': World, ops: map<nat, Op>) {
    Frame(w, w') && w'.ops == ops
  }

  lemma StartedFacts(dir: Directory, w: World, id: nat, owner: NodeId, name: Name, kind: string, gid: GroupId,
                     g: Group, pids: seq<Pid>, reshare: bool)
    requires SharingEnabled(dir, w, kind, gid, g, pids)
    ensures var w' := Started(dir, w, id, owner, name, kind, gid, g, pids, reshare);
      && w'.stores == w.stores && w'.groups == w.groups[gid := g]
      && w'.ops == w.ops[id := Sharing(owner, name, kind, gid, MembersFor(dir, g.holders, pids), 0, reshare)]
      && Frame(w, w') && Drawn(w, w', {gid}, set q | q in pids)
  {
    hide GroupOk, MembersFor, Extends, SharingEnabled;
    StartedShape(dir, w, id, owner, name, kind, gid, g, pids, reshare);
  }

  lemma SharingBegins(p: Primitives, dir: Directory, w: World, id: nat, owner: NodeId, name: Name, kind: string,
                      gid: GroupId, g: Group, pids: seq<Pid>, reshare: bool)
    requires MayShare(w, id, owner, name, g.secret, reshare) && SharingEnabled(dir, w, kind, gid, g, pids)
    requires owner in w.stores
    ensures var a := SharingAction(id, owner, name, kind, gid, g, pids, reshare);
      && Enabled(p, dir, w, a) && Next(p, dir, w, a).stores == w.stores
      && Next(p, dir, w, a).groups == w.groups[gid := g] && Drawn(w, Next(p, dir, w, a), {gid}, set q | q in pids)
      && Pending(w, Next(p, dir, w, a),
                 w.ops[id := Sharing(owner, name, kind, gid, MembersFor(dir, g.holders, pids), 0, reshare)])
  {
    hide CollectResult, Collected, SharingEnabled, Started, Frame, Drawn;
    StartedFacts(dir, w, id, owner, name, kind, gid, g, pids, reshare);
  }

  lemma SharingMember(dir: Directory, w: World, id: nat, i: nat)
    requires Inv(dir, w) && id in w.ops && w.ops[id].Sharing? && i < |w.ops[id].members|
    ensures w.ops[id].group in w.groups && w.ops[id].members[i].nodeId in w.stores && w.ops[id].members[i].nodeId in dir
    ensures dir[w.ops[id].members[i].nodeId] == w.ops[id].members[i].endpoint
    ensures forall n :: n in dir && dir[n] == w.ops[id].members[i].endpoint ==> n == w.ops[id].members[i].nodeId
  {
    hide RowsOk, ManifestsOk, SlotsHeld, ShareOf;
    TheOp(dir, w, id);
  }

  /** A delivery gives the next holder its share or ends the sharing; it commits nothing. */
  lemma DeliverFacts(p: Primitives, dir: Directory, w: World, id: nat, f: Fragment, outcome: Outcome)
    requires Inv(dir, w) && id in w.ops && w.ops[id].Sharing? && w.ops[id].next < |w.ops[id].members|
    requires w.ops[id].group in w.groups
    requires f == DeliveredRow(w.groups[w.ops[id].group], w.ops[id], f.key, f.ciphertext.nonce, f.chainId)
    ensures var a := Deliver(id, f.key, f.ciphertext.nonce, f.chainId, outcome);
      && Enabled(p, dir, w, a) && Drawn(w, Next(p, dir, w, a), {}, {})
      && Pending(w, Next(p, dir, w, a),
                 if outcome.Delivered? then w.ops[id := w.ops[id].(next := w.ops[id].next + 1)] else w.ops - {id})
  {
    hide Inv, DeliveredRow, Frame;
    TheOp(dir, w, id);
    SharingMember(dir, w, id, w.ops[id].next);
    RowStepsFrame(p, dir, w, Deliver(id, f.key, f.ciphertext.nonce, f.chainId, outcome));
  }

  /** One manifest is stored, under its own name; no other changes. */
  ghost predicate Committed(w: World, w': World, owner: NodeId, m: Manifest) {
    && Extends(w, w') && w'.stores.Keys == w.stores.Keys
    && forall n :: n in w.stores ==>
         w'.stores[n].manifests
           == if n == owner then w.stores[n].manifests[m.secretName := m] else w.stores[n].manifests
  }

  lemma CommitReady(dir: Directory, w: World, id: nat)
    requires Inv(dir, w) && id in w.ops && w.ops[id].Sharing?
    ensures w.ops[id].owner in w.stores && w.ops[id].kind != ""
  {
    hide Inv, MembersOk;
    TheOp(dir, w, id);
  }

  lemma CommitPuts(w: World, op: Op)
    requires op.Sharing? && op.owner in w.stores && op.group in w.groups && op.kind != ""
    ensures var m := NewManifest(w.groups[op.group], op);
      && m.secretName == op.name
      && PutManifest(w.stores[op.owner], m).manifests == w.stores[op.owner].manifests[m.secretName := m]
  {
  }

  lemma ExtendsTrans(w: World, w1: World, w2: World)
    requires Extends(w, w1) && Extends(w1, w2)
    ensures Extends(w, w2)
  {
  }

  lemma CommitFacts(p: Primitives, dir: Directory, w: World, w1: World, id: nat, ops: map<nat, Op>)
    requires Pending(w, w1, ops) && Inv(dir, w1) && id in ops && ops[id].Sharing? && ops[id].next == |ops[id].members|
    requires ops[id].group in w1.groups
    ensures Enabled(p, dir, w1, Commit(id)) && Next(p, dir, w1, Commit(id)).ops == ops - {id}
    ensures Drawn(w1, Next(p, dir, w1, Commit(id)), {}, {})
    ensures Committed(w, Next(p, dir, w1, Commit(id)), ops[id].owner, NewManifest(w1.groups[ops[id].group], ops[id]))
  {
    hide Inv, NewManifest, PutManifest, Extends;
    CommitReady(dir, w1, id);
    var w2 := Next(p, dir, w1, Commit(id));
    NextExtends(p, dir, w1, Commit(id));
    ExtendsTrans(w, w1, w2);
    CommitPuts(w1, ops[id]);
  }

  lemma StopFacts(p: Primitives, dir: Directory, w: World, id: nat)
    requires id in w.ops
    ensures Enabled(p, dir, w, Stop(id)) && Next(p, dir, w, Stop(id)).stores == w.stores
    ensures Pending(w, Next(p, dir, w, Stop(id)), w.ops - {id}) && Drawn(w, Next(p, dir, w, Stop(id)), {}, {})
  {
  }

  /** A collection for a reshare that has its bytes may share them out. */
  lemma CollectedMayShare(dir: Directory, w: World, id: nat, owner: NodeId, m: Manifest, works: seq<bool>, i: nat)
    requires m.groupId in w.groups && Inv(dir, CollectingAt(w, id, owner, m, true, works, i))
    requires Working(works, i) >= m.threshold
    ensures MayShare(CollectingAt(w, id, owner, m, true, works, i), id,
                     owner, m.secretName, w.groups[m.groupId].secret, true)
  {
    hide Inv, CollectResult, Collected, Shares, Fetched, Combined;
    CollectedSecret(dir, w, id, owner, m, true, works, i);
  }

  lemma PendingStart(w: World, id: nat)
    requires id in w.ops && w.ops[id].Sharing? && w.ops[id].next == 0
    ensures Pending(w, w, w.ops[id := w.ops[id].(next := 0)])
  {
    assert w.ops[id].(next := 0) == w.ops[id];
  }

  lemma PendingOp(w: World, w1: World, id: nat, op: Op)
    requires Pending(w, w1, w.ops[id := op])
    ensures id in w1.ops && w1.ops[id] == op
    ensures forall gid :: gid in w.groups ==> gid in w1.groups && w1.groups[gid] == w.groups[gid]
  {
  }

  lemma FrameTrans(w: World, w1: World, w2: World)
    requires Frame(w, w1) && Frame(w1, w2)
    ensures Frame(w, w2)
  {
  }

  lemma PendingNext(w: World, w1: World, w2: World, id: nat, op: Op, i: nat, acked: bool)
    requires op.Sharing? && Pending(w, w1, w.ops[id := op.(next := i)])
    requires Pending(w1, w2, if acked then w1.ops[id := op.(next := i + 1)] else w1.ops - {id})
    ensures Pending(w, w2, if acked then w.ops[id := op.(next := i + 1)] else w.ops - {id})
  {
    assert w.ops[id := op.(next := i)] - {id} == w.ops - {id};
    assert w.ops[id := op.(next := i)][id := op.(next := i + 1)] == w.ops[id := op.(next := i + 1)];
    hide Extends, SameManifests;
    FrameTrans(w, w1, w2);
  }

  // --- Effects on the stored bytes ---

  /** The name holds the new bytes, if any were written; every other name holds what it held. */
  ghost predicate Stored(w: World, w': World, owner: NodeId, name: Name, written: Option<Bytes>) {
    forall n, k :: Value(w', n, k) == if written.Some? && n == owner && k == name then written else Value(w, n, k)
  }

  lemma CommittedStores(dir: Directory, w: World, w': World, owner: NodeId, m: Manifest)
    requires Inv(dir, w) && Committed(w, w', owner, m) && owner in w.stores && m.groupId in w'.groups
    ensures Stored(w, w', owner, m.secretName, Some(w'.groups[m.groupId].secret))
  {
    hide Inv;
    ManifestGroups(dir, w);
  }

  lemma NothingStored(dir: Directory, w: World, w': World, owner: NodeId, name: Name)
    requires Inv(dir, w) && Frame(w, w')
    ensures Stored(w, w', owner, name, None)
  {
    hide Inv, Value;
    ManifestGroups(dir, w);
    SameManifestsSameValue(w, w');
  }

  /** What becomes of the owner's manifests. */
  lemma ManifestsNow(w: World, w': World, owner: NodeId, m: Manifest)
    requires owner in w.stores && owner in w'.stores
    ensures Frame(w, w') ==> w'.stores[owner].manifests == w.stores[owner].manifests
    ensures Committed(w, w', owner, m) ==>
      w'.stores[owner].manifests == w.stores[owner].manifests[m.secretName := m]
  {
  }
}
