/** Probing and resharing the manifests a node owns: when a reshare is attempted, what it renews,
    and that healing comes to rest. */
module Healing {
  import opened Wrappers
  import opened Picking
  import opened Ids
  import opened Gf256
  import opened Shamir
  import opened Store
  import opened Ratchet
  import opened Custody
  import opened CustodySafety
  import opened Refinement
  import opened CustodyRuns
  import opened Wiping
  import opened ClientSteps
  import opened Deals
  import opened Client
  import Net = Network

  /** The members behind endpoints that answer. */
  function AliveMembers(ms: seq<Member>, up: set<Endpoint>): seq<Member>
    decreases |ms|
  {
    if ms == [] then []
    else
      var before, last := AliveMembers(ms[..|ms| - 1], up), ms[|ms| - 1];
      if last.endpoint in up then before + [last] else before
  }

  /** Every listed member behind an endpoint that answers, and no other, in the list's order. */
  lemma {:induction false} AliveExactly(ms: seq<Member>, up: set<Endpoint>) returns (places: seq<nat>)
    ensures PickedBy(AliveMembers(ms, up), ms, places)
    ensures forall i :: i in places <==> 0 <= i < |ms| && ms[i].endpoint in up
    ensures |AliveMembers(ms, up)| == |set i | 0 <= i < |ms| && ms[i].endpoint in up|
    decreases |ms|
  {
    hide PickedBy;
    places := [];
    if ms == [] {
      NothingPicked<Member>();
    } else {
      var before, last := ms[..|ms| - 1], |ms| - 1;
      places := AliveExactly(before, up);
      PickedSnoc(AliveMembers(before, up), before, ms[last], places);
      assert ms == before + [ms[last]];
      if ms[last].endpoint in up {
        places := places + [last];
      }
    }
    PickedPlaces(AliveMembers(ms, up), ms, places);
    PickedCount(places, set i | 0 <= i < |ms| && ms[i].endpoint in up);
  }

  /** Enough members to recover, some lost, and not comfortably many left. */
  predicate Urgent(m: Manifest, up: set<Endpoint>, margin: int) {
    var alive := |AliveMembers(m.members, up)|;
    m.threshold <= alive < m.total && alive <= m.threshold + margin
  }

  /** Circumstances of healing one manifest: which endpoints answer the probe, which members answer
      the collection, who is registered or in the mesh, and what is drawn. */
  datatype Plan = Plan(up: set<Endpoint>, works: seq<bool>, listing: Option<Holders>, mesh: Holders, draws: Draws)

  ghost predicate GoodPlan(dir: Directory, w: World, plan: Plan, threshold: int) {
    && FreshDraws(w, plan.draws, threshold) && KnownHolders(dir, plan.mesh)
    && (plan.listing.Some? ==> KnownHolders(dir, plan.listing.value))
  }

  /** The mesh peers that answer a ping, in order. */
  function Answering(mesh: Holders, up: set<Endpoint>): Holders
    decreases |mesh|
  {
    if mesh == [] then []
    else
      var before, last := Answering(mesh[..|mesh| - 1], up), mesh[|mesh| - 1];
      if last.1 in up then before + [last] else before
  }

  /** Every mesh peer that answers, once per listing and in the mesh's order, and no other. */
  lemma {:induction false} AnsweringExactly(mesh: Holders, up: set<Endpoint>) returns (places: seq<nat>)
    ensures PickedBy(Answering(mesh, up), mesh, places)
    ensures forall i :: i in places <==> 0 <= i < |mesh| && mesh[i].1 in up
    ensures |Answering(mesh, up)| == |set i | 0 <= i < |mesh| && mesh[i].1 in up|
    decreases |mesh|
  {
    hide PickedBy;
    places := [];
    if mesh == [] {
      NothingPicked<(NodeId, Endpoint)>();
    } else {
      var before, last := mesh[..|mesh| - 1], |mesh| - 1;
      places := AnsweringExactly(before, up);
      PickedSnoc(Answering(before, up), before, mesh[last], places);
      assert mesh == before + [mesh[last]];
      if mesh[last].1 in up {
        places := places + [last];
      }
    }
    PickedPlaces(Answering(mesh, up), mesh, places);
    PickedCount(places, set i | 0 <= i < |mesh| && mesh[i].1 in up);
  }

  lemma {:induction false} AnsweringKnown(dir: Directory, mesh: Holders, up: set<Endpoint>)
    requires KnownHolders(dir, mesh)
    ensures KnownHolders(dir, Answering(mesh, up)) && forall h :: h in Answering(mesh, up) ==> h in mesh
    decreases |mesh|
  {
    if mesh != [] {
      var prefix, last := mesh[..|mesh| - 1], mesh[|mesh| - 1];
      AnsweringKnown(dir, prefix, up);
      forall h | h in Answering(prefix, up)
        ensures h.0 != last.0
      {
        var j :| 0 <= j < |prefix| && prefix[j] == h;
        assert mesh[j] == h;
      }
    }
  }

  function RenewedHolders(self: (NodeId, Endpoint), m: Manifest, plan: Plan): Holders {
    if m.kind == "backup" then Answering(plan.mesh, plan.draws.sending.up)
    else if plan.listing.Some? then SplitHolders(self, m.total, plan.listing.value, plan.draws)
    else []
  }

  /** Exactly when a reshare goes through: `current` is what the name's manifest is by then, and
      `data` its bytes. */
  predicate ReshareWorks(self: (NodeId, Endpoint), m: Manifest, current: Manifest, data: Bytes, plan: Plan) {
    && Working(plan.works, |current.members|) >= current.threshold
    && if m.kind == "backup" then BackupWorks(data, m.threshold, RenewedHolders(self, m, plan), plan.draws)
       else SplitWorks(self, data, m.threshold, m.total, plan.listing, plan.draws)
  }

  /** The reshare of a manifest can go through: enough members answer the collection, and the new
      holders - the mesh peers that answer, or as many registered nodes as before - make a group
      within bounds, take their shares and acknowledge them. */
  ghost predicate CanReshare(self: (NodeId, Endpoint), m: Manifest, data: Bytes, plan: Plan) {
    && |set k | 0 <= k < |m.members| && k < |plan.works| && plan.works[k]| >= m.threshold
    && data != [] && |plan.draws.entropy| >= |data|
    && if m.kind == "backup" then
         var n := |set i | 0 <= i < |plan.mesh| && plan.mesh[i].1 in plan.draws.sending.up|;
         && 2 <= m.threshold <= n <= 255
         && |plan.draws.pids| >= n && AllAcknowledged(plan.draws.sending, n)
       else
         && 2 <= m.threshold <= m.total <= 255 && plan.listing.Some?
         && var listed := plan.listing.value;
         && |set i | 0 <= i < |listed| && listed[i].0 != self.0 && listed[i].1 in plan.draws.sending.up| >= m.total - 1
         && |plan.draws.pids| >= m.total && AllAcknowledged(plan.draws.sending, m.total)
  }

  /** And exactly then it does. */
  lemma CanReshareIff(self: (NodeId, Endpoint), m: Manifest, data: Bytes, plan: Plan)
    ensures ReshareWorks(self, m, m, data, plan) <==> CanReshare(self, m, data, plan)
    ensures ReshareWorks(self, m, m, data, plan) ==> |plan.draws.pids| >= |RenewedHolders(self, m, plan)|
  {
    hide Working, SplitWorks, BackupWorks, Answering, Reachable, AllAcknowledged;
    WorkingCount(plan.works, |m.members|);
    if m.kind == "backup" {
      var places := AnsweringExactly(plan.mesh, plan.draws.sending.up);
      assert forall i :: 0 <= i < |places| ==> places[i] in places;
      BackupWorksIff(data, m.threshold, RenewedHolders(self, m, plan), plan.draws);
    } else {
      SplitWorksIff(self, data, m.threshold, m.total, plan.listing, plan.draws);
    }
  }

  /** The manifest that it stores. */
  function Renewed(self: (NodeId, Endpoint), m: Manifest, plan: Plan): Manifest
    requires |plan.draws.pids| >= |RenewedHolders(self, m, plan)|
  {
    var holders := RenewedHolders(self, m, plan);
    Manifest(m.secretName, if m.kind == "backup" then "backup" else "secret", plan.draws.group, plan.draws.token,
             m.threshold, |holders|, MembersOf(holders, plan.draws.pids))
  }

  method ProbeMembers(n: Owner, m: Manifest, up: set<Endpoint>) returns (alive: seq<Member>)
    requires n.net.Valid() && ManifestOk(n.net.dir, n.net.Now(), m)
    ensures alive == AliveMembers(m.members, up)
  {
    hide IsRun, Inv, ManifestOk;
    alive := [];
    n.net.NowInv();
    for i := 0 to |m.members|
      invariant alive == AliveMembers(m.members[..i], up)
    {
      assert m.members[..i + 1][..i] == m.members[..i];
      var member := m.members[i];
      if member.endpoint in up {
        MemberFacts(n.net.dir, n.net.Now(), m, i);
        ghost var f := MemberHasRow(n.net.dir, n.net.Now(), m, i);
        var present, holder, row := n.net.CheckPresence(member.endpoint, m.groupId, m.groupToken);
        assert n.net.Tables()[member.nodeId] == n.net.Now().stores[member.nodeId];
        MemberRow(n.net.dir, n.net.Now(), m, i, row.value);
        if present {
          alive := alive + [member];
        }
      }
    }
    assert m.members[..|m.members|] == m.members;
  }

  method PingMesh(mesh: Holders, up: set<Endpoint>) returns (reachable: Holders)
    ensures reachable == Answering(mesh, up)
  {
    reachable := [];
    for i := 0 to |mesh|
      invariant reachable == Answering(mesh[..i], up)
    {
      assert mesh[..i + 1][..i] == mesh[..i];
      if mesh[i].1 in up {
        reachable := reachable + [mesh[i]];
      }
    }
    assert mesh[..|mesh|] == mesh;
  }

  /** What collecting for a reshare leaves to share out. */
  lemma CollectedForReshare(dir: Directory, w: World, id: nat, self: NodeId, m: Manifest, works: seq<bool>, asked: nat,
                            plan: Plan, threshold: int)
    requires m.groupId in w.groups && Inv(dir, w) && Inv(dir, CollectingAt(w, id, self, m, true, works, asked))
    requires Working(works, asked) >= m.threshold && id !in w.ops && GoodPlan(dir, w, plan, threshold)
    ensures var w1 := CollectingAt(w, id, self, m, true, works, asked);
      && MayShare(w1, id, self, m.secretName, w.groups[m.groupId].secret, true)
      && GoodPlan(dir, w1, plan, threshold) && w1.ops - {id} == w.ops
      && Frame(w, w1) && Drawn(w, w1, {}, {})
  {
    hide Inv, MayShare, KnownHolders;
    CollectedMayShare(dir, w, id, self, m, works, asked);
    assert CollectingAt(w, id, self, m, true, works, asked).ops - {id} == w.ops;
  }

  /** A reshare's effect, seen from where it began. */
  lemma ReshareEffect(dir: Directory, w: World, w1: World, w2: World, self: NodeId, m: Manifest, draws: Draws)
    requires Frame(w, w1) && Drawn(w, w1, {}, {}) && DrawnBy(w1, w2, draws)
    ensures DrawnBy(w, w2, draws)
    ensures Frame(w1, w2) ==> Frame(w, w2)
    ensures Committed(w1, w2, self, m) ==> Committed(w, w2, self, m)
  {
    hide Extends;
    if Extends(w1, w2) {
      ExtendsTrans(w, w1, w2);
    }
  }

  /** The bytes under every name stay the same. */
  ghost predicate SameValues(w: World, w': World) {
    forall n, k :: Value(w', n, k) == Value(w, n, k)
  }

  lemma RenewalKeepsValues(dir: Directory, w: World, w': World, self: NodeId, m: Manifest)
    requires Inv(dir, w) && self in w.stores && Committed(w, w', self, m) && m.groupId in w'.groups
    requires Value(w, self, m.secretName) == Some(w'.groups[m.groupId].secret)
    ensures SameValues(w, w')
  {
    hide Inv, Value;
    CommittedStores(dir, w, w', self, m);
  }

  lemma FailureKeepsValues(dir: Directory, w: World, w': World)
    requires Inv(dir, w) && Frame(w, w')
    ensures SameValues(w, w')
  {
    hide Inv, Value;
    NothingStored(dir, w, w', "", "");
  }

  /** Shares the collected bytes out again, over the mesh or the registered nodes. */
  method ShareAgain(n: Owner, m: Manifest, data: array<byte>, plan: Plan, ghost id: nat)
    returns (failure: Option<ClientError>)
    requires n.net.Valid() && n.Registered() && GoodPlan(n.net.dir, n.net.Now(), plan, m.threshold)
    requires MayShare(n.net.Now(), id, n.nodeId, m.secretName, data[..], true)
    modifies n.net, n.net.stores.Values
    ensures n.net.Valid() && old(n.net.states) <= n.net.states && old(n.net.actions) <= n.net.actions
    ensures failure.None? <==>
      if m.kind == "backup"
      then BackupWorks(data[..], m.threshold, RenewedHolders((n.nodeId, n.endpoint), m, plan), plan.draws)
      else SplitWorks((n.nodeId, n.endpoint), data[..], m.threshold, m.total, plan.listing, plan.draws)
    ensures n.net.Now().ops == old(n.net.Now()).ops - {id} && DrawnBy(old(n.net.Now()), n.net.Now(), plan.draws)
    ensures failure.Some? ==> Frame(old(n.net.Now()), n.net.Now())
    ensures failure.None? ==>
      && plan.draws.group in n.net.Now().groups && n.net.Now().groups[plan.draws.group].secret == data[..]
      && |plan.draws.pids| >= |RenewedHolders((n.nodeId, n.endpoint), m, plan)|
      && Committed(old(n.net.Now()), n.net.Now(), n.nodeId, Renewed((n.nodeId, n.endpoint), m, plan))
  {
    hide IsRun, Inv, Net.Network.Valid, MayShare, Frame, DrawnBy, Drawn, Committed, KnownHolders, FreshDraws,
      FirstFailure, Reachable, Answering;
    if m.kind == "backup" {
      var reachable := PingMesh(plan.mesh, plan.draws.sending.up);
      AnsweringKnown(n.net.dir, plan.mesh, plan.draws.sending.up);
      if |reachable| < m.threshold {
        ghost var w := n.net.Now();
        n.Abandon(id, m.secretName, data[..], true);
        NothingDrawn(w, n.net.Now(), plan.draws);
        return Some(TooFewPeers);
      }
      failure := n.DistributeBackup(m.secretName, data, m.threshold, reachable, plan.draws, id, true);
    } else {
      failure := n.SplitFor(m.secretName, data, m.threshold, m.total, plan.listing, plan.draws, id, true);
    }
  }

  lemma NothingHappened(dir: Directory, w: World, draws: Draws)
    ensures Frame(w, w) && DrawnBy(w, w, draws) && SameValues(w, w)
  {
  }

  /** The second half of a reshare, from the collected bytes on; the buffer is wiped at the end. */
  method ReshareCollected(n: Owner, m: Manifest, data: array<byte>, plan: Plan, ghost w: World, ghost id: nat,
                          ghost bytes: Bytes)
    returns (done: bool)
    requires n.net.Valid() && n.Registered() && GoodPlan(n.net.dir, n.net.Now(), plan, m.threshold)
    requires data != n.net.t.expTable && data != n.net.t.logTable && data[..] == bytes
    requires MayShare(n.net.Now(), id, n.nodeId, m.secretName, bytes, true)
    requires Inv(n.net.dir, w) && n.nodeId in w.stores && Value(w, n.nodeId, m.secretName) == Some(bytes)
    requires Frame(w, n.net.Now()) && Drawn(w, n.net.Now(), {}, {})
    modifies n.net, n.net.stores.Values, data
    ensures n.net.Valid() && old(n.net.states) <= n.net.states && old(n.net.actions) <= n.net.actions
    ensures done <==>
      if m.kind == "backup"
      then BackupWorks(bytes, m.threshold, RenewedHolders((n.nodeId, n.endpoint), m, plan), plan.draws)
      else SplitWorks((n.nodeId, n.endpoint), bytes, m.threshold, m.total, plan.listing, plan.draws)
    ensures n.net.Now().ops == old(n.net.Now()).ops - {id} && DrawnBy(w, n.net.Now(), plan.draws)
    ensures SameValues(w, n.net.Now())
    ensures !done ==> Frame(w, n.net.Now())
    ensures done ==>
      && |plan.draws.pids| >= |RenewedHolders((n.nodeId, n.endpoint), m, plan)|
      && Committed(w, n.net.Now(), n.nodeId, Renewed((n.nodeId, n.endpoint), m, plan))
    ensures Wiped(data)
  {
    hide IsRun, Inv, Net.Network.Valid, MayShare, Frame, DrawnBy, Drawn, Committed, KnownHolders, FreshDraws,
      FirstFailure, Reachable, Answering, SplitWorks, BackupWorks, RenewedHolders, SameValues, GoodPlan, Value;
    ghost var w1 := n.net.Now();
    var failure := ShareAgain(n, m, data, plan, id);
    Wipe(data);
    done := failure.None?;
    if done {
      ghost var m' := Renewed((n.nodeId, n.endpoint), m, plan);
      ReshareEffect(n.net.dir, w, w1, n.net.Now(), n.nodeId, m', plan.draws);
      RenewalKeepsValues(n.net.dir, w, n.net.Now(), n.nodeId, m');
    } else {
      ReshareEffect(n.net.dir, w, w1, n.net.Now(), n.nodeId, m, plan.draws);
      FailureKeepsValues(n.net.dir, w, n.net.Now());
    }
  }

  /** Reconstructs a manifest's secret and shares it out afresh. Whatever fails on the way, no
      name's bytes change; when nothing fails the name has a new manifest over a new group. */
  method ReshareManifest(n: Owner, m: Manifest, plan: Plan) returns (done: bool)
    requires n.net.Valid() && n.Registered() && GoodPlan(n.net.dir, n.net.Now(), plan, m.threshold)
    requires m.secretName in n.net.stores[n.nodeId].manifests
    modifies n.net, n.net.stores.Values
    ensures n.net.Valid() && old(n.net.states) <= n.net.states && old(n.net.actions) <= n.net.actions
    ensures SameValues(old(n.net.Now()), n.net.Now())
    ensures n.net.Now().ops == old(n.net.Now()).ops && DrawnBy(old(n.net.Now()), n.net.Now(), plan.draws)
    ensures Value(old(n.net.Now()), n.nodeId, m.secretName).Some?
    ensures done <==> ReshareWorks((n.nodeId, n.endpoint), m, old(n.net.stores[n.nodeId].manifests)[m.secretName],
                                   Value(old(n.net.Now()), n.nodeId, m.secretName).value, plan)
    ensures !done ==> Frame(old(n.net.Now()), n.net.Now())
    ensures done ==>
      && |plan.draws.pids| >= |RenewedHolders((n.nodeId, n.endpoint), m, plan)|
      && Committed(old(n.net.Now()), n.net.Now(), n.nodeId, Renewed((n.nodeId, n.endpoint), m, plan))
  {
    hide IsRun, Inv, Net.Network.Valid, MayShare, Frame, DrawnBy, Drawn, Committed, KnownHolders, FreshDraws,
      FirstFailure, Reachable, Answering, CollectingAt, SplitWorks, BackupWorks, RenewedHolders, SameValues, GoodPlan,
      Working;
    ghost var w, self := n.net.Now(), (n.nodeId, n.endpoint);
    n.net.NowInv();
    ManifestGroups(n.net.dir, w);
    assert n.net.Tables()[n.nodeId] == w.stores[n.nodeId];
    ghost var current := n.net.stores[n.nodeId].manifests[m.secretName];
    ghost var id := FreshId(w);
    NothingHappened(n.net.dir, w, plan.draws);
    var data, asked := n.Collect(m.secretName, plan.works, id, true);
    if data.Err? {
      return false;
    }
    n.net.NowInv();
    CollectedForReshare(n.net.dir, w, id, n.nodeId, current, plan.works, asked, plan, m.threshold);
    done := ReshareCollected(n, m, data.value, plan, w, id, data.value[..]);
  }

  /** A reshare that is attempted goes through. */
  ghost predicate Renews(self: (NodeId, Endpoint), w: World, m: Manifest, current: Manifest, plan: Plan, attempt: bool)
  {
    && attempt && Value(w, self.0, m.secretName).Some?
    && ReshareWorks(self, m, current, Value(w, self.0, m.secretName).value, plan)
    && |plan.draws.pids| >= |RenewedHolders(self, m, plan)|
  }

  /** What becomes of the manifest. */
  ghost function Kept(self: (NodeId, Endpoint), w: World, m: Manifest, plan: Plan, attempt: bool): Manifest {
    if Renews(self, w, m, m, plan, attempt) then Renewed(self, m, plan) else m
  }

  /** A reshare, in terms of this node's manifests: one is replaced or none. */
  method ReshareStored(n: Owner, m: Manifest, plan: Plan) returns (done: bool)
    requires n.net.Valid() && n.Registered() && GoodPlan(n.net.dir, n.net.Now(), plan, m.threshold)
    requires m.secretName in n.net.stores[n.nodeId].manifests
    modifies n.net, n.net.stores.Values
    ensures n.net.Valid() && old(n.net.states) <= n.net.states && old(n.net.actions) <= n.net.actions
    ensures SameValues(old(n.net.Now()), n.net.Now())
    ensures n.net.Now().ops == old(n.net.Now()).ops && DrawnBy(old(n.net.Now()), n.net.Now(), plan.draws)
    ensures done <==> Renews((n.nodeId, n.endpoint), old(n.net.Now()), m,
                             old(n.net.stores[n.nodeId].manifests)[m.secretName], plan, true)
    ensures n.net.stores[n.nodeId].manifests
      == if done then old(n.net.stores[n.nodeId].manifests)[m.secretName := Renewed((n.nodeId, n.endpoint), m, plan)]
         else old(n.net.stores[n.nodeId].manifests)
  {
    hide IsRun, Inv, Net.Network.Valid, Frame, DrawnBy, Committed, SameValues, GoodPlan, ReshareWorks, RenewedHolders,
      Value;
    ghost var w, self := n.net.Now(), (n.nodeId, n.endpoint);
    assert n.net.Tables()[n.nodeId] == w.stores[n.nodeId];
    done := ReshareManifest(n, m, plan);
    assert n.net.Tables()[n.nodeId] == n.net.Now().stores[n.nodeId];
    ManifestsNow(w, n.net.Now(), self.0, if done then Renewed(self, m, plan) else m);
  }

  /** Heals one manifest: a reshare is attempted exactly when it is urgent. */
  method HealOne(n: Owner, m: Manifest, margin: int, plan: Plan) returns (attempted: bool, done: bool)
    requires n.net.Valid() && n.Registered() && GoodPlan(n.net.dir, n.net.Now(), plan, m.threshold)
    requires ManifestOk(n.net.dir, n.net.Now(), m) && m.secretName in n.net.stores[n.nodeId].manifests
    modifies n.net, n.net.stores.Values
    ensures n.net.Valid() && old(n.net.states) <= n.net.states && old(n.net.actions) <= n.net.actions
    ensures attempted <==> Urgent(m, plan.up, margin)
    ensures attempted <==>
      var k := |set i | 0 <= i < |m.members| && m.members[i].endpoint in plan.up|;
      m.threshold <= k <= if m.total - 1 < m.threshold + margin then m.total - 1 else m.threshold + margin
    ensures !attempted ==> n.net.Now() == old(n.net.Now()) && n.net.actions == old(n.net.actions)
    ensures SameValues(old(n.net.Now()), n.net.Now())
    ensures n.net.Now().ops == old(n.net.Now()).ops && DrawnBy(old(n.net.Now()), n.net.Now(), plan.draws)
    ensures done <==> Renews((n.nodeId, n.endpoint), old(n.net.Now()), m,
                             old(n.net.stores[n.nodeId].manifests)[m.secretName], plan, attempted)
    ensures n.net.stores[n.nodeId].manifests
      == if done then old(n.net.stores[n.nodeId].manifests)[m.secretName := Renewed((n.nodeId, n.endpoint), m, plan)]
         else old(n.net.stores[n.nodeId].manifests)
  {
    hide IsRun, Inv, Net.Network.Valid, Frame, DrawnBy, Committed, SameValues, GoodPlan, ReshareWorks, RenewedHolders,
      Value, ManifestOk, AliveMembers;
    NothingHappened(n.net.dir, n.net.Now(), plan.draws);
    attempted, done := false, false;
    var alive := ProbeMembers(n, m, plan.up);
    ghost var places := AliveExactly(m.members, plan.up);
    if |alive| >= m.total {
      return;
    }
    if |alive| < m.threshold {
      return;
    }
    if |alive| > m.threshold + margin {
      return;
    }
    attempted := true;
    done := ReshareStored(n, m, plan);
  }

  // --- A whole cycle ---

  ghost predicate Apart(d: Draws, e: Draws) {
    d.group != e.group && forall q :: q in d.pids ==> q !in e.pids
  }

  /** One plan per manifest, each good now, and no two drawing the same identifier. */
  ghost predicate GoodPlans(dir: Directory, w: World, plans: map<Name, Plan>, ms: map<Name, Manifest>) {
    && (forall name :: name in ms ==> name in plans && GoodPlan(dir, w, plans[name], ms[name].threshold))
    && (forall a, b :: a in ms && b in ms && a != b && a in plans && b in plans ==>
          Apart(plans[a].draws, plans[b].draws))
  }

  lemma StillGood(dir: Directory, w: World, w': World, done: Plan, plan: Plan, threshold: int)
    requires GoodPlan(dir, w, plan, threshold) && DrawnBy(w, w', done.draws) && Apart(plan.draws, done.draws)
    ensures GoodPlan(dir, w', plan, threshold)
  {
    hide KnownHolders;
  }

  /** A forced cycle reshares everything; a healing cycle what is urgent within its margin. */
  ghost predicate Attempts(m: Manifest, plan: Plan, margin: Option<int>) {
    margin.None? || Urgent(m, plan.up, margin.value)
  }

  predicate Handled(ms: seq<Manifest>, k: nat, name: Name) {
    exists j :: 0 <= j < k && j < |ms| && ms[j].secretName == name
  }

  /** The node's manifests once the first k of the listed ones have been seen to. */
  ghost function AfterSome(self: (NodeId, Endpoint), w: World, ms: map<Name, Manifest>, listed: seq<Manifest>, k: nat,
                           plans: map<Name, Plan>, margin: Option<int>): map<Name, Manifest>
    requires ms.Keys <= plans.Keys
  {
    map name | name in ms ::
      if Handled(listed, k, name) then Kept(self, w, ms[name], plans[name], Attempts(ms[name], plans[name], margin))
      else ms[name]
  }

  /** The node's manifests after a whole cycle: both kinds are seen to. */
  ghost function AfterCycle(self: (NodeId, Endpoint), w: World, ms: map<Name, Manifest>, plans: map<Name, Plan>,
                            margin: Option<int>)
    : map<Name, Manifest>
    requires ms.Keys <= plans.Keys
  {
    map name | name in ms ::
      if ms[name].kind == "backup" || ms[name].kind == "secret"
      then Kept(self, w, ms[name], plans[name], Attempts(ms[name], plans[name], margin)) else ms[name]
  }

  /** The list holds exactly the manifests of both kinds, once each. */
  ghost predicate Lists(ms: map<Name, Manifest>, listed: seq<Manifest>) {
    && (forall m :: m in listed <==>
          m.secretName in ms && ms[m.secretName] == m && (m.kind == "backup" || m.kind == "secret"))
    && (forall i, j :: 0 <= i < j < |listed| ==> listed[i].secretName != listed[j].secretName)
  }

  method OwnedManifests(n: Owner) returns (ms: seq<Manifest>)
    requires n.net.Valid() && n.Registered()
    ensures Lists(n.net.stores[n.nodeId].manifests, ms)
    ensures forall name :: name in n.net.stores[n.nodeId].manifests ==>
      n.net.stores[n.nodeId].manifests[name].secretName == name
  {
    hide IsRun, Inv;
    n.net.NowInv();
    ManifestGroups(n.net.dir, n.net.Now());
    assert n.net.Tables()[n.nodeId] == n.net.Now().stores[n.nodeId];
    var backups := n.net.stores[n.nodeId].ListManifestsByKind("backup");
    var secrets := n.net.stores[n.nodeId].ListManifestsByKind("secret");
    forall i, j | 0 <= i < |backups| && 0 <= j < |secrets|
      ensures backups[i].secretName != secrets[j].secretName
    {
      assert backups[i] in backups && secrets[j] in secrets;
    }
    ms := backups + secrets;
  }

  lemma SomeStep(self: (NodeId, Endpoint), w: World, ms: map<Name, Manifest>, listed: seq<Manifest>, k: nat,
                 plans: map<Name, Plan>, margin: Option<int>)
    requires ms.Keys <= plans.Keys && Lists(ms, listed) && k < |listed|
    ensures listed[k].secretName in ms && ms[listed[k].secretName] == listed[k]
    ensures listed[k].secretName in AfterSome(self, w, ms, listed, k, plans, margin)
    ensures AfterSome(self, w, ms, listed, k, plans, margin)[listed[k].secretName] == listed[k]
    ensures AfterSome(self, w, ms, listed, k + 1, plans, margin)
      == AfterSome(self, w, ms, listed, k, plans, margin)[listed[k].secretName :=
           Kept(self, w, listed[k], plans[listed[k].secretName],
                Attempts(listed[k], plans[listed[k].secretName], margin))]
  {
    hide Kept, Attempts;
    assert listed[k] in listed;
    forall name | name in ms
      ensures Handled(listed, k + 1, name) <==> Handled(listed, k, name) || name == listed[k].secretName
    {
      if name == listed[k].secretName {
        assert Handled(listed, k + 1, name);
      }
    }
    assert !Handled(listed, k, listed[k].secretName);
  }

  lemma SomeEnds(self: (NodeId, Endpoint), w: World, ms: map<Name, Manifest>, listed: seq<Manifest>,
                 plans: map<Name, Plan>, margin: Option<int>)
    requires ms.Keys <= plans.Keys && Lists(ms, listed) && forall name :: name in ms ==> ms[name].secretName == name
    ensures AfterSome(self, w, ms, listed, 0, plans, margin) == ms
    ensures AfterSome(self, w, ms, listed, |listed|, plans, margin) == AfterCycle(self, w, ms, plans, margin)
  {
    hide Kept, Attempts;
    forall name | name in ms
      ensures Handled(listed, |listed|, name) <==> ms[name].kind == "backup" || ms[name].kind == "secret"
    {
      if Handled(listed, |listed|, name) {
        var j :| 0 <= j < |listed| && listed[j].secretName == name;
        assert listed[j] in listed;
      }
      if ms[name].kind == "backup" || ms[name].kind == "secret" {
        assert ms[name] in listed;
        var j :| 0 <= j < |listed| && listed[j] == ms[name];
      }
    }
  }

  /** The plans not used yet are still good. */
  ghost predicate PlansLeft(dir: Directory, w: World, plans: map<Name, Plan>, listed: seq<Manifest>, k: nat) {
    forall j :: k <= j < |listed| ==>
      listed[j].secretName in plans && GoodPlan(dir, w, plans[listed[j].secretName], listed[j].threshold)
  }

  lemma PlansStart(dir: Directory, w: World, plans: map<Name, Plan>, ms: map<Name, Manifest>, listed: seq<Manifest>)
    requires GoodPlans(dir, w, plans, ms) && Lists(ms, listed)
    ensures PlansLeft(dir, w, plans, listed, 0)
  {
    hide GoodPlan, Apart;
    forall j | 0 <= j < |listed|
      ensures listed[j].secretName in plans && GoodPlan(dir, w, plans[listed[j].secretName], listed[j].threshold)
    {
      assert listed[j] in listed;
    }
  }

  lemma PlansGoOn(dir: Directory, w: World, now: World, now': World, plans: map<Name, Plan>, ms: map<Name, Manifest>,
                  listed: seq<Manifest>, k: nat)
    requires GoodPlans(dir, w, plans, ms) && Lists(ms, listed) && k < |listed| && PlansLeft(dir, now, plans, listed, k)
    requires DrawnBy(now, now', plans[listed[k].secretName].draws)
    ensures PlansLeft(dir, now', plans, listed, k + 1)
  {
    hide GoodPlan, Apart, DrawnBy;
    forall j | k + 1 <= j < |listed|
      ensures GoodPlan(dir, now', plans[listed[j].secretName], listed[j].threshold)
    {
      assert listed[j] in listed && listed[k] in listed;
      StillGood(dir, now, now', plans[listed[k].secretName], plans[listed[j].secretName], listed[j].threshold);
    }
  }

  /** At least as many members are up as it takes, not all, and at most `margin` too many; a forced
      cycle has no margin and does not ask. */
  ghost predicate InWindow(m: Manifest, up: set<Endpoint>, margin: Option<int>) {
    margin.None?
    || var k := |set i | 0 <= i < |m.members| && m.members[i].endpoint in up|;
       m.threshold <= k && k < m.total && k <= m.threshold + margin.value
  }

  /** m' holds the same secret over the drawn group: same name, kind and threshold, the drawn
      pseudonyms, as many members as the mesh peers that answer or as before. */
  ghost predicate Replaces(m': Manifest, m: Manifest, plan: Plan) {
    && m'.groupId == plan.draws.group && m'.groupToken == plan.draws.token
    && m'.secretName == m.secretName && m'.kind == m.kind && m'.threshold == m.threshold
    && m'.total == |m'.members| <= |plan.draws.pids|
    && m'.total == (if m.kind == "backup"
                    then |set i | 0 <= i < |plan.mesh| && plan.mesh[i].1 in plan.draws.sending.up| else m.total)
    && forall i :: 0 <= i < |m'.members| ==> m'.members[i].pid == plan.draws.pids[i]
  }

  /** What a cycle leaves of each manifest: one of either kind that is within the window and can be
      reshared is replaced, every other stays. */
  ghost predicate Cycled(self: (NodeId, Endpoint), w: World, ms: map<Name, Manifest>, ms': map<Name, Manifest>,
                         plans: map<Name, Plan>, margin: Option<int>)
  {
    && ms'.Keys == ms.Keys <= plans.Keys
    && forall name :: name in ms ==>
         && Value(w, self.0, name).Some?
         && if (ms[name].kind == "backup" || ms[name].kind == "secret") && InWindow(ms[name], plans[name].up, margin)
               && CanReshare(self, ms[name], Value(w, self.0, name).value, plans[name])
            then Replaces(ms'[name], ms[name], plans[name]) else ms'[name] == ms[name]
  }

  lemma AttemptsInWindow(m: Manifest, plan: Plan, margin: Option<int>)
    ensures Attempts(m, plan, margin) <==> InWindow(m, plan.up, margin)
  {
    var places := AliveExactly(m.members, plan.up);
  }

  lemma RenewedReplaces(self: (NodeId, Endpoint), m: Manifest, data: Bytes, plan: Plan)
    requires ReshareWorks(self, m, m, data, plan) && (m.kind == "backup" || m.kind == "secret")
    requires |plan.draws.pids| >= |RenewedHolders(self, m, plan)|
    ensures Replaces(Renewed(self, m, plan), m, plan)
  {
    hide Working, Answering, Reachable, FirstFailure;
    var places := AnsweringExactly(plan.mesh, plan.draws.sending.up);
  }

  lemma KeptCycles(self: (NodeId, Endpoint), w: World, m: Manifest, plan: Plan, margin: Option<int>)
    requires Value(w, self.0, m.secretName).Some? && (m.kind == "backup" || m.kind == "secret")
    ensures var m' := Kept(self, w, m, plan, Attempts(m, plan, margin));
      if InWindow(m, plan.up, margin) && CanReshare(self, m, Value(w, self.0, m.secretName).value, plan)
      then Replaces(m', m, plan) else m' == m
  {
    hide ReshareWorks, RenewedHolders, CanReshare, InWindow, Replaces, Attempts, Value, Renewed;
    var data := Value(w, self.0, m.secretName).value;
    AttemptsInWindow(m, plan, margin);
    CanReshareIff(self, m, data, plan);
    if ReshareWorks(self, m, m, data, plan) {
      RenewedReplaces(self, m, data, plan);
    }
  }

  lemma CycleCycles(self: (NodeId, Endpoint), w: World, ms: map<Name, Manifest>, plans: map<Name, Plan>,
                    margin: Option<int>)
    requires ms.Keys <= plans.Keys
    requires forall name :: name in ms ==> ms[name].secretName == name && Value(w, self.0, name).Some?
    ensures Cycled(self, w, ms, AfterCycle(self, w, ms, plans, margin), plans, margin)
  {
    hide Kept, Attempts, Value, InWindow, CanReshare, Replaces;
    var after := AfterCycle(self, w, ms, plans, margin);
    forall name | name in ms && (ms[name].kind == "backup" || ms[name].kind == "secret")
      ensures if InWindow(ms[name], plans[name].up, margin)
                 && CanReshare(self, ms[name], Value(w, self.0, name).value, plans[name])
              then Replaces(after[name], ms[name], plans[name]) else after[name] == ms[name]
    {
      KeptCycles(self, w, ms[name], plans[name], margin);
    }
  }

  lemma OwnValues(n: Owner)
    requires n.net.Valid() && n.Registered()
    ensures forall name :: name in n.net.stores[n.nodeId].manifests ==>
      Value(n.net.Now(), n.nodeId, name).Some?
  {
    hide IsRun, Inv;
    n.net.NowInv();
    ManifestGroups(n.net.dir, n.net.Now());
    assert n.net.Tables()[n.nodeId] == n.net.Now().stores[n.nodeId];
  }

  /** A manifest that was healed or left is what the cycle makes of it. */
  lemma StepKept(self: (NodeId, Endpoint), w: World, now: World, cur: map<Name, Manifest>, cur': map<Name, Manifest>,
                 m: Manifest, plan: Plan, attempt: bool)
    requires SameValues(w, now) && m.secretName in cur && cur[m.secretName] == m
    requires Renews(self, now, m, m, plan, attempt) ==> cur' == cur[m.secretName := Renewed(self, m, plan)]
    requires !Renews(self, now, m, m, plan, attempt) ==> cur' == cur
    ensures cur' == cur[m.secretName := Kept(self, w, m, plan, attempt)]
  {
    hide Value, ReshareWorks, RenewedHolders;
  }

  lemma ValuesTrans(w: World, w1: World, w2: World)
    requires SameValues(w, w1) && SameValues(w1, w2)
    ensures SameValues(w, w2)
  {
    hide Value;
  }

  lemma PlansCover(dir: Directory, w: World, plans: map<Name, Plan>, ms: map<Name, Manifest>)
    requires GoodPlans(dir, w, plans, ms)
    ensures ms.Keys <= plans.Keys
  {
  }

  lemma PlanFor(dir: Directory, w: World, plans: map<Name, Plan>, listed: seq<Manifest>, k: nat)
    requires PlansLeft(dir, w, plans, listed, k) && k < |listed|
    ensures listed[k].secretName in plans && GoodPlan(dir, w, plans[listed[k].secretName], listed[k].threshold)
  {
  }

  lemma StoredNow(n: Owner, m: Manifest)
    requires n.net.Valid() && n.Registered()
    requires m.secretName in n.net.stores[n.nodeId].manifests && n.net.stores[n.nodeId].manifests[m.secretName] == m
    ensures ManifestOk(n.net.dir, n.net.Now(), m)
  {
    hide IsRun, Inv, ManifestOk;
    n.net.NowInv();
    assert n.net.Tables()[n.nodeId] == n.net.Now().stores[n.nodeId];
    TheManifest(n.net.dir, n.net.Now(), n.nodeId, m.secretName);
  }

  /** One healing cycle over everything the node owns, both kinds alike: no bytes change, and
      exactly the urgent manifests whose reshare goes through are renewed. */
  method HealManifests(n: Owner, margin: int, plans: map<Name, Plan>)
    requires n.net.Valid() && n.Registered()
    requires GoodPlans(n.net.dir, n.net.Now(), plans, n.net.stores[n.nodeId].manifests)
    modifies n.net, n.net.stores.Values
    ensures n.net.Valid() && old(n.net.states) <= n.net.states && old(n.net.actions) <= n.net.actions
    ensures SameValues(old(n.net.Now()), n.net.Now()) && n.net.Now().ops == old(n.net.Now()).ops
    ensures n.net.stores[n.nodeId].manifests
      == AfterCycle((n.nodeId, n.endpoint), old(n.net.Now()),
                    old(n.net.stores[n.nodeId].manifests), plans, Some(margin))
    ensures Cycled((n.nodeId, n.endpoint), old(n.net.Now()), old(n.net.stores[n.nodeId].manifests),
                   n.net.stores[n.nodeId].manifests, plans, Some(margin))
    ensures (forall name :: name in old(n.net.stores[n.nodeId].manifests) ==>
               !Urgent(old(n.net.stores[n.nodeId].manifests)[name], plans[name].up, margin))
      ==> n.net.Now() == old(n.net.Now()) && n.net.actions == old(n.net.actions)
  {
    hide IsRun, Inv, Net.Network.Valid, DrawnBy, SameValues, GoodPlans, GoodPlan, ManifestOk, Renews, Kept, PlansLeft,
      Lists, AfterSome, Urgent, Cycled, Value;
    ghost var w, self, ms := n.net.Now(), (n.nodeId, n.endpoint), n.net.stores[n.nodeId].manifests;
    var listed := OwnedManifests(n);
    PlansStart(n.net.dir, w, plans, ms, listed);
    PlansCover(n.net.dir, w, plans, ms);
    SomeEnds(self, w, ms, listed, plans, Some(margin));
    OwnValues(n);
    CycleCycles(self, w, ms, plans, Some(margin));
    NothingHappened(n.net.dir, w, Draws("", "", [], [], Sending({}, [])));
    for k := 0 to |listed|
      invariant n.net.Valid() && old(n.net.states) <= n.net.states && old(n.net.actions) <= n.net.actions
      invariant SameValues(w, n.net.Now()) && n.net.Now().ops == w.ops
      invariant PlansLeft(n.net.dir, n.net.Now(), plans, listed, k)
      invariant n.net.stores[n.nodeId].manifests == AfterSome(self, w, ms, listed, k, plans, Some(margin))
      invariant (forall name :: name in ms ==> !Urgent(ms[name], plans[name].up, margin))
        ==> n.net.Now() == w && n.net.actions == old(n.net.actions)
    {
      ghost var now, cur := n.net.Now(), n.net.stores[n.nodeId].manifests;
      var m := listed[k];
      SomeStep(self, w, ms, listed, k, plans, Some(margin));
      PlanFor(n.net.dir, now, plans, listed, k);
      StoredNow(n, m);
      var attempted, done := HealOne(n, m, margin, plans[m.secretName]);
      StepKept(self, w, now, cur, n.net.stores[n.nodeId].manifests, m, plans[m.secretName], attempted);
      ValuesTrans(w, now, n.net.Now());
      PlansGoOn(n.net.dir, w, now, n.net.Now(), plans, ms, listed, k);
    }
  }

  /** After a confirmed incident: everything the node owns is reshared, whoever is alive. */
  method ForceReshareOwned(n: Owner, plans: map<Name, Plan>)
    requires n.net.Valid() && n.Registered()
    requires GoodPlans(n.net.dir, n.net.Now(), plans, n.net.stores[n.nodeId].manifests)
    modifies n.net, n.net.stores.Values
    ensures n.net.Valid() && old(n.net.states) <= n.net.states && old(n.net.actions) <= n.net.actions
    ensures SameValues(old(n.net.Now()), n.net.Now()) && n.net.Now().ops == old(n.net.Now()).ops
    ensures n.net.stores[n.nodeId].manifests
      == AfterCycle((n.nodeId, n.endpoint), old(n.net.Now()), old(n.net.stores[n.nodeId].manifests), plans, None)
    ensures Cycled((n.nodeId, n.endpoint), old(n.net.Now()), old(n.net.stores[n.nodeId].manifests),
                   n.net.stores[n.nodeId].manifests, plans, None)
  {
    hide IsRun, Inv, Net.Network.Valid, DrawnBy, SameValues, GoodPlans, GoodPlan, ManifestOk, Renews, Kept, PlansLeft,
      Lists, AfterSome, Urgent, Cycled, Value;
    ghost var w, self, ms := n.net.Now(), (n.nodeId, n.endpoint), n.net.stores[n.nodeId].manifests;
    var listed := OwnedManifests(n);
    PlansStart(n.net.dir, w, plans, ms, listed);
    PlansCover(n.net.dir, w, plans, ms);
    SomeEnds(self, w, ms, listed, plans, None);
    OwnValues(n);
    CycleCycles(self, w, ms, plans, None);
    NothingHappened(n.net.dir, w, Draws("", "", [], [], Sending({}, [])));
    for k := 0 to |listed|
      invariant n.net.Valid() && old(n.net.states) <= n.net.states && old(n.net.actions) <= n.net.actions
      invariant SameValues(w, n.net.Now()) && n.net.Now().ops == w.ops
      invariant PlansLeft(n.net.dir, n.net.Now(), plans, listed, k)
      invariant n.net.stores[n.nodeId].manifests == AfterSome(self, w, ms, listed, k, plans, None)
    {
      ghost var now, cur := n.net.Now(), n.net.stores[n.nodeId].manifests;
      var m := listed[k];
      SomeStep(self, w, ms, listed, k, plans, None);
      PlanFor(n.net.dir, now, plans, listed, k);
      var done := ReshareStored(n, m, plans[m.secretName]);
      StepKept(self, w, now, cur, n.net.stores[n.nodeId].manifests, m, plans[m.secretName], true);
      ValuesTrans(w, now, n.net.Now());
      PlansGoOn(n.net.dir, w, now, n.net.Now(), plans, ms, listed, k);
    }
  }

  // --- Healing comes to rest ---

  /** Every member is behind an endpoint that answers. */
  ghost predicate AllUp(m: Manifest, up: set<Endpoint>) {
    forall i :: 0 <= i < |m.members| ==> m.members[i].endpoint in up
  }

  lemma {:induction false} AllAlive(ms: seq<Member>, up: set<Endpoint>)
    requires forall i :: 0 <= i < |ms| ==> ms[i].endpoint in up
    ensures AliveMembers(ms, up) == ms
    decreases |ms|
  {
    if ms != [] {
      AllAlive(ms[..|ms| - 1], up);
      assert ms == ms[..|ms| - 1] + [ms[|ms| - 1]];
    }
  }

  lemma {:induction false} AcknowledgedUp(ms: seq<Member>, i: nat, sending: Sending, keepFirst: bool)
    requires i <= |ms| && FirstFailure(ms, i, sending, keepFirst).None?
    ensures forall k :: i <= k < |ms| && !(keepFirst && k == 0) ==> ms[k].endpoint in sending.up
    decreases |ms| - i
  {
    if i < |ms| {
      AcknowledgedUp(ms, i + 1, sending, keepFirst);
    }
  }

  /** Every member of a renewed manifest acknowledged its share, or is the node itself. */
  lemma RenewedIsUp(self: (NodeId, Endpoint), w: World, m: Manifest, current: Manifest, plan: Plan, up: set<Endpoint>)
    requires Renews(self, w, m, current, plan, true) && plan.draws.sending.up <= up && self.1 in up
    ensures AllUp(Renewed(self, m, plan), up)
  {
    hide Reachable, Answering, Fate, FirstFailure;
    var holders := RenewedHolders(self, m, plan);
    AcknowledgedUp(MembersOf(holders, plan.draws.pids), 0, plan.draws.sending, m.kind != "backup");
  }

  /** With every member up nothing is urgent, whatever the margin. */
  lemma UpIsNotUrgent(m: Manifest, up: set<Endpoint>, margin: int)
    requires AllUp(m, up) && m.total == |m.members|
    ensures !Urgent(m, up, margin)
  {
    AllAlive(m.members, up);
  }

  lemma LeftAlone(self: (NodeId, Endpoint), w: World, m: Manifest, plan: Plan)
    ensures Kept(self, w, m, plan, false) == m
  {
    hide ReshareWorks, RenewedHolders;
  }

  lemma RenewedNow(self: (NodeId, Endpoint), w: World, m: Manifest, plan: Plan)
    requires Renews(self, w, m, m, plan, true)
    ensures Kept(self, w, m, plan, true) == Renewed(self, m, plan)
    ensures Renewed(self, m, plan).total == |Renewed(self, m, plan).members|
  {
    hide ReshareWorks, RenewedHolders;
  }

  /** After a cycle in which every urgent manifest was renewed, nothing is urgent while the nodes
      that answered keep answering: the next cycle does nothing. */
  lemma NextCycleRests(self: (NodeId, Endpoint), w: World, ms: map<Name, Manifest>, plans: map<Name, Plan>, margin: int,
                       up: set<Endpoint>)
    requires ms.Keys <= plans.Keys && self.1 in up
    requires forall name :: name in ms ==> plans[name].up == up && plans[name].draws.sending.up <= up
    requires forall name :: name in ms && Urgent(ms[name], up, margin) ==>
      (ms[name].kind == "backup" || ms[name].kind == "secret") && Renews(self, w, ms[name], ms[name], plans[name], true)
    ensures var after := AfterCycle(self, w, ms, plans, Some(margin));
      forall name :: name in after ==> !Urgent(after[name], up, margin)
  {
    hide Urgent, Renews, RenewedHolders;
    var after := AfterCycle(self, w, ms, plans, Some(margin));
    forall name | name in after
      ensures !Urgent(after[name], up, margin)
    {
      if Urgent(ms[name], up, margin) {
        RenewedNow(self, w, ms[name], plans[name]);
        RenewedIsUp(self, w, ms[name], ms[name], plans[name], up);
        UpIsNotUrgent(after[name], up, margin);
      } else {
        LeftAlone(self, w, ms[name], plans[name]);
      }
    }
  }

  /** Over any later stretch of any run - mutations, notices and other operations included - a
      manifest whose members were all up stays at rest while they stay up, as long as it names
      the same group. */
  lemma HealingComesToRest(p: Primitives, dir: Directory, states: seq<World>, actions: seq<Action>, i: nat, j: nat,
                           n: NodeId, name: Name, up: set<Endpoint>, margin: int)
    requires IsRun(p, dir, states, actions) && i <= j < |states|
    requires n in states[i].stores && name in states[i].stores[n].manifests
    requires n in states[j].stores && name in states[j].stores[n].manifests
    requires states[j].stores[n].manifests[name].groupId == states[i].stores[n].manifests[name].groupId
    requires AllUp(states[i].stores[n].manifests[name], up)
    ensures !Urgent(states[j].stores[n].manifests[name], up, margin)
  {
    hide Inv, IsRun, ManifestOk, Urgent;
    RunInv(p, dir, states, actions, i);
    RunInv(p, dir, states, actions, j);
    RunExtends(p, dir, states, actions, i, j);
    var m, m' := states[i].stores[n].manifests[name], states[j].stores[n].manifests[name];
    TheManifest(dir, states[i], n, name);
    TheManifest(dir, states[j], n, name);
    ManifestFacts(dir, states[i], m);
    ManifestFacts(dir, states[j], m');
    forall k | 0 <= k < |m'.members|
      ensures m'.members[k].endpoint in up
    {
      MemberFacts(dir, states[i], m, k);
      MemberFacts(dir, states[j], m', k);
    }
    UpIsNotUrgent(m', up, margin);
  }
}
