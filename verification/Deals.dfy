/** Sharing one group out: who gets which share, and what becomes of each delivery. */
module Deals {
  import opened Wrappers
  import opened Picking
  import opened Ids
  import opened Shamir
  import opened Store
  import opened Ratchet
  import opened Custody
  import opened Refinement
  import opened ClientSteps

  /** What sealing and sending one share draws and meets: the key, nonce and chain id that are
      drawn, and what becomes of the request. */
  datatype Attempt = Attempt(key: Bytes, nonce: Bytes, chainId: ChainId, outcome: Outcome)

  /** Who can be reached, and the attempts in order; when they run out the random source failed. */
  datatype Sending = Sending(up: set<Endpoint>, attempts: seq<Attempt>)

  /** What becomes of the i-th share; the first is stored locally when the node keeps one itself. */
  function Fate(ms: seq<Member>, i: nat, sending: Sending, keepFirst: bool): Outcome
    requires i < |ms|
  {
    if i >= |sending.attempts| then Failed
    else if !(keepFirst && i == 0) && ms[i].endpoint !in sending.up then Failed
    else sending.attempts[i].outcome
  }

  /** The first share from index i on that is not acknowledged. */
  function FirstFailure(ms: seq<Member>, i: nat, sending: Sending, keepFirst: bool): Option<nat>
    requires i <= |ms|
    decreases |ms| - i
  {
    if i == |ms| then None
    else if !Fate(ms, i, sending, keepFirst).Delivered? then Some(i)
    else FirstFailure(ms, i + 1, sending, keepFirst)
  }

  /** One group being shared out: its identity, threshold and members. */
  datatype Deal = Deal(group: GroupId, token: string, threshold: int, members: seq<Member>)

  /** The row holds share i, sealed under the attempt's key for its own group and pseudonym. */
  ghost predicate SealedRow(d: Deal, i: nat, g: Group, a: Attempt, row: Fragment)
    requires i < |d.members|
  {
    row == Fragment(d.members[i].pid, d.group, d.token, a.chainId, 0, d.threshold, |d.members|, a.key,
                    Encrypt(a.key, ShareOf(g, i), Aad(d.group, d.members[i].pid), a.nonce), d.members)
  }

  /** Operation id is sharing out the group; the members before i have their share. */
  ghost predicate Dealing(w: World, id: nat, d: Deal, g: Group, i: nat) {
    && id in w.ops && w.ops[id].Sharing? && d.group in w.groups && w.groups[d.group] == g
    && w.ops[id].members == d.members && w.ops[id].next == i && w.ops[id].group == d.group
    && g.token == d.token && g.threshold == d.threshold && |g.holders| == |d.members|
  }

  /** The pending operations after the i-th delivery. */
  ghost function DealtOps(w: World, id: nat, i: nat, acked: bool): map<nat, Op> {
    if acked && id in w.ops && w.ops[id].Sharing? then w.ops[id := w.ops[id].(next := i + 1)] else w.ops - {id}
  }

  /** The pending operations once i members have their share, or after a failure. */
  ghost function AllDealtOps(w: World, id: nat, i: nat, going: bool): map<nat, Op> {
    if going && id in w.ops && w.ops[id].Sharing? then w.ops[id := w.ops[id].(next := i)] else w.ops - {id}
  }

  lemma DealStarts(w: World, id: nat, d: Deal, g: Group)
    requires Dealing(w, id, d, g, 0)
    ensures Pending(w, w, AllDealtOps(w, id, 0, true)) && Drawn(w, w, {}, {})
  {
    PendingStart(w, id);
  }

  lemma DealGoesOn(w: World, w1: World, w2: World, id: nat, d: Deal, g: Group, i: nat, acked: bool)
    requires Dealing(w, id, d, g, 0) && Pending(w, w1, AllDealtOps(w, id, i, true))
    requires Pending(w1, w2, DealtOps(w1, id, i, acked))
    ensures Pending(w, w2, AllDealtOps(w, id, i + 1, acked))
    ensures !acked ==> forall j :: AllDealtOps(w, id, j, false) == AllDealtOps(w, id, i + 1, false)
  {
    hide Frame;
    PendingNext(w, w1, w2, id, w.ops[id], i, acked);
  }

  lemma DealStops(p: Primitives, dir: Directory, w: World, id: nat, d: Deal, g: Group, i: nat)
    requires Dealing(w, id, d, g, i)
    ensures Enabled(p, dir, w, Stop(id)) && Next(p, dir, w, Stop(id)).stores == w.stores
    ensures Pending(w, Next(p, dir, w, Stop(id)), DealtOps(w, id, i, false))
    ensures Drawn(w, Next(p, dir, w, Stop(id)), {}, {})
  {
    hide Enabled, Next, Pending;
    StopFacts(p, dir, w, id);
  }

  lemma RowIsDelivered(g: Group, op: Op, a: Attempt, f: Fragment)
    requires op.Sharing? && op.next < |op.members| && |g.holders| == |op.members|
    requires f == Fragment(op.members[op.next].pid, op.group, g.token, a.chainId, 0, g.threshold, |op.members|, a.key,
                           Encrypt(a.key, ShareOf(g, op.next),
                                   Aad(op.group, op.members[op.next].pid), a.nonce), op.members)
    ensures f == DeliveredRow(g, op, f.key, f.ciphertext.nonce, f.chainId)
    ensures f.key == a.key && f.ciphertext.nonce == a.nonce && f.chainId == a.chainId
  {
    hide ShareOf;
  }

  lemma DealDelivers(p: Primitives, dir: Directory, w: World, id: nat, d: Deal, g: Group, i: nat, a: Attempt,
                     row: Fragment)
    requires Inv(dir, w) && Dealing(w, id, d, g, i) && i < |d.members| && SealedRow(d, i, g, a, row)
    ensures id in w.ops && w.ops[id].Sharing? && w.ops[id].next < |w.ops[id].members| && w.ops[id].group in w.groups
    ensures row.key == a.key && row.ciphertext.nonce == a.nonce && row.chainId == a.chainId
    ensures w.ops[id].members[w.ops[id].next] == d.members[i]
    ensures row == DeliveredRow(w.groups[w.ops[id].group], w.ops[id], a.key, a.nonce, a.chainId)
    ensures d.members[i].nodeId in w.stores && d.members[i].nodeId in dir
    ensures dir[d.members[i].nodeId] == d.members[i].endpoint
    ensures forall n :: n in dir && dir[n] == d.members[i].endpoint ==> n == d.members[i].nodeId
    ensures var act := Deliver(id, a.key, a.nonce, a.chainId, a.outcome);
      && Enabled(p, dir, w, act) && Drawn(w, Next(p, dir, w, act), {}, {})
      && Pending(w, Next(p, dir, w, act), DealtOps(w, id, i, a.outcome.Delivered?))
      && (a.outcome.Delivered? ==> Dealing(Next(p, dir, w, act), id, d, g, i + 1))
  {
    hide Inv, ShareOf, Enabled, Next, DeliveredRow, Frame;
    SharingMember(dir, w, id, i);
    RowIsDelivered(g, w.ops[id], a, row);
    DeliverFacts(p, dir, w, id, row, a.outcome);
    if a.outcome.Delivered? {
      PendingOp(w, Next(p, dir, w, Deliver(id, a.key, a.nonce, a.chainId, a.outcome)), id, w.ops[id].(next := i + 1));
    }
  }

  // --- A whole sharing ---

  /** What one sharing draws from the random source. */
  datatype Draws = Draws(group: GroupId, token: string, pids: seq<Pid>, entropy: seq<Bytes>, sending: Sending)

  type Holders = seq<(NodeId, Endpoint)>

  /** The holders are registered at their own endpoints, no two of them the same. */
  ghost predicate KnownHolders(dir: Directory, holders: Holders) {
    && (forall i :: 0 <= i < |holders| ==> holders[i].0 in dir && dir[holders[i].0] == holders[i].1)
    && (forall i, j :: 0 <= i < j < |holders| ==> holders[i].0 != holders[j].0)
  }

  /** Drawn identifiers are new, and each read of entropy has the length asked for. */
  ghost predicate FreshDraws(w: World, draws: Draws, threshold: int) {
    && draws.group !in w.groups && NewPids(w, draws.pids)
    && forall b :: 0 <= b < |draws.entropy| ==> |draws.entropy[b]| == threshold - 1
  }

  /** No identifiers become known but the ones drawn. */
  ghost predicate DrawnBy(w: World, w': World, draws: Draws) {
    Drawn(w, w', {draws.group}, set q | q in draws.pids)
  }

  function NodesOf(holders: Holders): (ns: seq<NodeId>)
    ensures |ns| == |holders|
  {
    seq(|holders|, i requires 0 <= i < |holders| => holders[i].0)
  }

  function MembersOf(holders: Holders, pids: seq<Pid>): (ms: seq<Member>)
    requires |pids| >= |holders|
    ensures |ms| == |holders|
  {
    seq(|holders|, i requires 0 <= i < |holders| => Member(pids[i], holders[i].0, holders[i].1))
  }

  ghost function GroupFor(data: Bytes, threshold: int, draws: Draws, holders: Holders): Group {
    Group(draws.token, data, threshold,
          if |draws.entropy| > |data| then draws.entropy[..|data|] else draws.entropy, NodesOf(holders))
  }

  /** The sharing can be prepared: valid parameters, and enough randomness for all of it. */
  predicate Preparable(data: Bytes, threshold: int, draws: Draws, holders: Holders) {
    2 <= threshold <= |holders| <= 255 && data != [] && |draws.entropy| >= |data| && |draws.pids| >= |holders|
  }

  lemma PreparedGroup(dir: Directory, w: World, id: nat, kind: string, data: Bytes, threshold: int, draws: Draws,
                      holders: Holders)
    requires KnownHolders(dir, holders) && FreshDraws(w, draws, threshold)
    requires Preparable(data, threshold, draws, holders) && kind != ""
    ensures var g := GroupFor(data, threshold, draws, holders);
      && SharingEnabled(dir, w, kind, draws.group, g, draws.pids[..|holders|]) && g.secret == data
      && MembersFor(dir, g.holders, draws.pids[..|holders|]) == MembersOf(holders, draws.pids)
      && forall i: nat :: i < |holders| ==> |data| <= |g.rows| && ShareOf(g, i) == ShareAt(data, g.rows, i)
  {
  }

  lemma NothingPending(w: World, id: nat)
    ensures id !in w.ops ==> Pending(w, w, w.ops - {id})
    ensures Drawn(w, w, {}, {})
  {
    assert id !in w.ops ==> w.ops - {id} == w.ops;
  }

  lemma DealEnds(w: World, w1: World, w2: World, id: nat, op: Op, d: Deal, g: Group, going: bool)
    requires Dealing(w1, id, d, g, 0) && Pending(w, w1, w.ops[id := op])
    requires op.Sharing? && Pending(w1, w2, AllDealtOps(w1, id, |d.members|, going))
    ensures Pending(w, w2, if going then w.ops[id := op.(next := |d.members|)] else w.ops - {id})
  {
    hide Frame;
    FrameTrans(w, w1, w2);
    assert w.ops[id := op] - {id} == w.ops - {id};
    assert w.ops[id := op][id := op.(next := |d.members|)] == w.ops[id := op.(next := |d.members|)];
  }

  lemma CommittedGroup(p: Primitives, dir: Directory, w: World, id: nat, gid: GroupId)
    requires Enabled(p, dir, w, Commit(id)) && gid in w.groups
    ensures gid in Next(p, dir, w, Commit(id)).groups && Next(p, dir, w, Commit(id)).groups[gid] == w.groups[gid]
  {
    hide Enabled;
    NextExtends(p, dir, w, Commit(id));
  }

  /** The commit of a sharing whose shares are all delivered. */
  lemma DealCommits(p: Primitives, dir: Directory, w: World, w2: World, id: nat, owner: NodeId, name: Name,
                    kind: string, d: Deal, g: Group, reshare: bool)
    requires Inv(dir, w2) && Dealing(w2, id, d, g, |d.members|)
    requires Pending(w, w2, w.ops[id := Sharing(owner, name, kind, d.group, d.members, |d.members|, reshare)])
    ensures var m := Manifest(name, kind, d.group, d.token, d.threshold, |d.members|, d.members);
      && id in w2.ops && w2.ops[id].Sharing? && w2.ops[id].owner == owner && w2.ops[id].group in w2.groups
      && m == NewManifest(w2.groups[w2.ops[id].group], w2.ops[id])
      && Enabled(p, dir, w2, Commit(id)) && Next(p, dir, w2, Commit(id)).ops == w.ops - {id}
      && d.group in Next(p, dir, w2, Commit(id)).groups && Next(p, dir, w2, Commit(id)).groups[d.group] == g
      && Committed(w, Next(p, dir, w2, Commit(id)), owner, m) && Drawn(w2, Next(p, dir, w2, Commit(id)), {}, {})
  {
    hide Inv, Frame, Enabled, Next, Committed;
    var op := Sharing(owner, name, kind, d.group, d.members, |d.members|, reshare);
    CommitFacts(p, dir, w, w2, id, w.ops[id := op]);
    CommittedGroup(p, dir, w2, id, d.group);
    assert w.ops[id := op] - {id} == w.ops - {id};
  }

  lemma NothingDrawn(w: World, w': World, draws: Draws)
    requires Drawn(w, w', {}, {})
    ensures DrawnBy(w, w', draws)
  {
  }

  lemma DrawnWithin(w: World, w1: World, w2: World, draws: Draws, n: nat)
    requires n <= |draws.pids| && Drawn(w, w1, {draws.group}, set q | q in draws.pids[..n]) && Drawn(w1, w2, {}, {})
    ensures DrawnBy(w, w2, draws)
  {
  }

  // --- Choosing the holders ---

  /** The listed nodes other than `self` that answer a ping, in order. */
  function Reachable(nodes: Holders, self: NodeId, up: set<Endpoint>): Holders
    decreases |nodes|
  {
    if nodes == [] then []
    else
      var before, last := Reachable(nodes[..|nodes| - 1], self, up), nodes[|nodes| - 1];
      if last.0 == self || last.1 !in up then before else before + [last]
  }

  lemma {:induction false} ReachablePrefix(nodes: Holders, i: nat, self: NodeId, up: set<Endpoint>)
    requires i <= |nodes|
    ensures Reachable(nodes[..i], self, up) <= Reachable(nodes, self, up)
    decreases |nodes|
  {
    if i == |nodes| {
      assert nodes[..i] == nodes;
    } else {
      assert nodes[..|nodes| - 1][..i] == nodes[..i];
      ReachablePrefix(nodes[..|nodes| - 1], i, self, up);
    }
  }

  lemma {:induction false} ReachableListed(nodes: Holders, self: NodeId, up: set<Endpoint>)
    ensures forall h :: h in Reachable(nodes, self, up) ==> h in nodes && h.0 != self && h.1 in up
    decreases |nodes|
  {
    if nodes != [] {
      ReachableListed(nodes[..|nodes| - 1], self, up);
    }
  }

  /** Every listed node but `self` that answers is found, once per listing and in its order, and no
      other. */
  lemma {:induction false} ReachableExactly(nodes: Holders, self: NodeId, up: set<Endpoint>) returns (places: seq<nat>)
    ensures PickedBy(Reachable(nodes, self, up), nodes, places)
    ensures forall i :: i in places <==> 0 <= i < |nodes| && nodes[i].0 != self && nodes[i].1 in up
    ensures |Reachable(nodes, self, up)| == |set i | 0 <= i < |nodes| && nodes[i].0 != self && nodes[i].1 in up|
    decreases |nodes|
  {
    hide PickedBy;
    places := [];
    if nodes == [] {
      NothingPicked<(NodeId, Endpoint)>();
    } else {
      var before, last := nodes[..|nodes| - 1], |nodes| - 1;
      places := ReachableExactly(before, self, up);
      PickedSnoc(Reachable(before, self, up), before, nodes[last], places);
      assert nodes == before + [nodes[last]];
      if nodes[last].0 != self && nodes[last].1 in up {
        places := places + [last];
      }
    }
    PickedPlaces(Reachable(nodes, self, up), nodes, places);
    PickedCount(places, set i | 0 <= i < |nodes| && nodes[i].0 != self && nodes[i].1 in up);
  }

  lemma {:induction false} NoFailure(ms: seq<Member>, i: nat, sending: Sending, keepFirst: bool)
    requires i <= |ms|
    ensures FirstFailure(ms, i, sending, keepFirst).None? <==>
      forall k :: i <= k < |ms| ==> Fate(ms, k, sending, keepFirst).Delivered?
    ensures FirstFailure(ms, i, sending, keepFirst).Some? ==>
      var j := FirstFailure(ms, i, sending, keepFirst).value;
      && i <= j < |ms| && !Fate(ms, j, sending, keepFirst).Delivered?
      && forall k :: i <= k < j ==> Fate(ms, k, sending, keepFirst).Delivered?
    decreases |ms| - i
  {
    hide Fate;
    if i < |ms| {
      NoFailure(ms, i + 1, sending, keepFirst);
    }
  }

  /** The first n attempts all end with the share acknowledged. */
  ghost predicate AllAcknowledged(sending: Sending, n: int) {
    n <= |sending.attempts| && forall i :: 0 <= i < n ==> sending.attempts[i].outcome.Delivered?
  }

  lemma AllFates(ms: seq<Member>, sending: Sending, keepFirst: bool)
    ensures (forall k :: 0 <= k < |ms| ==> Fate(ms, k, sending, keepFirst).Delivered?) <==>
      && AllAcknowledged(sending, |ms|)
      && forall k :: 0 <= k < |ms| && !(keepFirst && k == 0) ==> ms[k].endpoint in sending.up
  {
    if forall k :: 0 <= k < |ms| ==> Fate(ms, k, sending, keepFirst).Delivered? {
      forall k | 0 <= k < |ms|
        ensures k < |sending.attempts| && sending.attempts[k].outcome.Delivered?
        ensures !(keepFirst && k == 0) ==> ms[k].endpoint in sending.up
      {
        assert Fate(ms, k, sending, keepFirst).Delivered?;
      }
      assert |ms| > 0 ==> Fate(ms, |ms| - 1, sending, keepFirst).Delivered?;
    }
  }

  lemma {:induction false} ReachableKnownAll(dir: Directory, nodes: Holders, self: NodeId, up: set<Endpoint>)
    requires KnownHolders(dir, nodes)
    ensures KnownHolders(dir, Reachable(nodes, self, up))
    decreases |nodes|
  {
    if nodes != [] {
      ReachableKnownAll(dir, nodes[..|nodes| - 1], self, up);
      ReachableListed(nodes[..|nodes| - 1], self, up);
    }
  }

  /** The node itself and its first reachable peers are known holders. */
  lemma ReachableKnown(dir: Directory, nodes: Holders, self: (NodeId, Endpoint), up: set<Endpoint>, need: nat)
    requires KnownHolders(dir, nodes) && self.0 in dir
    requires dir[self.0] == self.1 && need <= |Reachable(nodes, self.0, up)|
    ensures KnownHolders(dir, [self] + Reachable(nodes, self.0, up)[..need])
  {
    ReachableKnownAll(dir, nodes, self.0, up);
    ReachableListed(nodes, self.0, up);
  }

  function SplitHolders(self: (NodeId, Endpoint), total: int, nodes: Holders, draws: Draws): Holders {
    var found := Reachable(nodes, self.0, draws.sending.up);
    if 1 <= total <= |found| + 1 then [self] + found[..total - 1] else []
  }

  /** Exactly when a split goes through. */
  predicate SplitWorks(self: (NodeId, Endpoint), data: Bytes, threshold: int, total: int, listing: Option<Holders>,
                       draws: Draws)
  {
    && total >= 2 && listing.Some? && |Reachable(listing.value, self.0, draws.sending.up)| >= total - 1
    && Preparable(data, threshold, draws, SplitHolders(self, total, listing.value, draws))
    && FirstFailure(MembersOf(SplitHolders(self, total, listing.value, draws), draws.pids),
                    0, draws.sending, true).None?
  }

  /** Exactly when a backup goes through. */
  predicate BackupWorks(data: Bytes, threshold: int, mesh: Holders, draws: Draws) {
    && Preparable(data, threshold, draws, mesh)
    && FirstFailure(MembersOf(mesh, draws.pids), 0, draws.sending, false).None?
  }

  lemma SplitHoldersUp(self: (NodeId, Endpoint), total: int, nodes: Holders, draws: Draws)
    requires 2 <= total <= |Reachable(nodes, self.0, draws.sending.up)| + 1
    ensures var holders := SplitHolders(self, total, nodes, draws);
      && |holders| == total && holders[0] == self
      && forall i :: 1 <= i < total ==>
           holders[i] in nodes && holders[i].0 != self.0 && holders[i].1 in draws.sending.up
  {
    ReachableListed(nodes, self.0, draws.sending.up);
  }

  /** A split goes through if and only if the parameters are in bounds, enough other listed nodes
      answer, the random source suffices and every delivery is acknowledged. */
  lemma SplitWorksIff(self: (NodeId, Endpoint), data: Bytes, threshold: int, total: int, listing: Option<Holders>,
                      draws: Draws)
    ensures SplitWorks(self, data, threshold, total, listing, draws) <==>
      && 2 <= threshold <= total <= 255 && data != [] && listing.Some?
      && |set i | 0 <= i < |listing.value| && listing.value[i].0 != self.0 && listing.value[i].1 in draws.sending.up|
           >= total - 1
      && |draws.entropy| >= |data| && |draws.pids| >= total && AllAcknowledged(draws.sending, total)
    ensures listing.Some? ==>
      |Reachable(listing.value, self.0, draws.sending.up)|
        == |set i | 0 <= i < |listing.value| && listing.value[i].0 != self.0 && listing.value[i].1 in draws.sending.up|
  {
    hide Reachable, FirstFailure, Fate, AllAcknowledged;
    if listing.Some? {
      var places := ReachableExactly(listing.value, self.0, draws.sending.up);
      if total >= 2 && |Reachable(listing.value, self.0, draws.sending.up)| >= total - 1 && |draws.pids| >= total {
        var holders := SplitHolders(self, total, listing.value, draws);
        SplitHoldersUp(self, total, listing.value, draws);
        NoFailure(MembersOf(holders, draws.pids), 0, draws.sending, true);
        AllFates(MembersOf(holders, draws.pids), draws.sending, true);
      }
    }
  }

  /** And a backup if and only if the whole mesh answers, and the like. */
  lemma BackupWorksIff(data: Bytes, threshold: int, mesh: Holders, draws: Draws)
    ensures BackupWorks(data, threshold, mesh, draws) <==>
      && 2 <= threshold <= |mesh| <= 255 && data != []
      && (forall i :: 0 <= i < |mesh| ==> mesh[i].1 in draws.sending.up)
      && |draws.entropy| >= |data| && |draws.pids| >= |mesh| && AllAcknowledged(draws.sending, |mesh|)
  {
    hide FirstFailure, Fate, AllAcknowledged;
    if |draws.pids| >= |mesh| {
      var ms := MembersOf(mesh, draws.pids);
      assert forall i :: 0 <= i < |mesh| ==> ms[i].endpoint == mesh[i].1;
      NoFailure(ms, 0, draws.sending, false);
      AllFates(ms, draws.sending, false);
    }
  }
}
