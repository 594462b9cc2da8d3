/** What a node does as an owner of secrets: it sends shares out, collects them back and renews
    them. The outcome of each network exchange is a parameter. */
module Client {
  import opened Wrappers
  import opened Ids
  import opened Gf256
  import opened Shamir
  import opened Store
  import opened Custody
  import opened Refinement
  import opened CustodyRuns
  import opened Wiping
  import opened ClientSteps
  import opened Deals
  import Net = Network

  datatype ClientError =
    | TotalTooSmall | NoDirectory | TooFewPeers | BadSharing(error: Error) | NoRandomness
    | DeliveryFailed(index: nat) | NoManifest | TooFewAnswers | BadShares(shareError: Error)

  class Owner {
    const nodeId: NodeId
    const endpoint: Endpoint
    const net: Net.Network
    constructor (nodeId: NodeId, endpoint: Endpoint, net: Net.Network)
      ensures this.nodeId == nodeId && this.endpoint == endpoint && this.net == net
    {
      this.nodeId, this.endpoint, this.net := nodeId, endpoint, net;
    }

    /** This node runs, under the endpoint that the others know it by. */
    ghost predicate Registered()
    {
      nodeId in net.stores && nodeId in net.dir && net.dir[nodeId] == endpoint
    }

    /** One turn of the collecting loop. */
    method AskMember(m: Manifest, i: nat, works: bool) returns (r: Option<Bytes>, ghost row: Option<Fragment>)
      requires net.Valid() && nodeId in net.stores && ManifestOk(net.dir, net.Now(), m) && i < |m.members|
      ensures m.groupId in net.Now().groups
      ensures r == if works then Some(ShareOf(net.Now().groups[m.groupId], i)) else None
      ensures row.Some? <==> works
      ensures row.Some? ==>
        && m.members[i].nodeId in net.Now().stores
        && row.value in net.Now().stores[m.members[i].nodeId].fragments.Values && row.value.groupId == m.groupId
    {
      hide IsRun, Inv, ManifestOk, ShareOf;
      ghost var w := net.Now();
      net.NowInv();
      MemberFacts(net.dir, w, m, i);
      ghost var f := MemberHasRow(net.dir, w, m, i);
      r, row := None, None;
      if works {
        var member := m.members[i];
        if member.nodeId == nodeId {
          r, row := net.OwnShare(nodeId, m.groupId);
        } else {
          ghost var n;
          r, n, row := net.FetchGroupShare(member.endpoint, m.groupId, m.groupToken);
        }
        assert net.Tables()[member.nodeId] == w.stores[member.nodeId];
        MemberRow(net.dir, w, m, i, row.value);
      }
    }

    /** The same, as the next step of a collection under way. */
    method AskNext(m: Manifest, i: nat, works: seq<bool>, ghost w: World, ghost id: nat, ghost reshare: bool)
      returns (r: Option<Bytes>)
      requires net.Valid() && nodeId in net.stores && ManifestOk(net.dir, net.Now(), m) && i < |m.members|
      requires m.groupId in w.groups && net.Now() == CollectingAt(w, id, nodeId, m, reshare, works, i)
      requires Working(works, i) < m.threshold
      modifies net
      ensures net.Valid() && old(net.states) <= net.states && old(net.actions) <= net.actions
      ensures net.Now() == CollectingAt(w, id, nodeId, m, reshare, works, i + 1) && ManifestOk(net.dir, net.Now(), m)
      ensures r == if Works(works, i) then Some(ShareOf(w.groups[m.groupId], i)) else None
    {
      hide IsRun, Inv, ManifestOk, ShareOf, Enabled, Next, Fetched;
      net.NowInv();
      ghost var row;
      r, row := AskMember(m, i, i < |works| && works[i]);
      AskStep(net.p, net.dir, w, id, nodeId, m, reshare, works, i, row);
      net.TakeQuietly(Fetch(id, if row.None? then None else Some(row.value.pid)));
      SameManifestOk(net.dir, w, id, nodeId, m, reshare, works, i, i + 1);
    }

    /** Asks the members in order until there are enough shares; each share gets its own buffer. */
    method CollectShares(m: Manifest, works: seq<bool>, ghost w: World, ghost id: nat, ghost reshare: bool)
      returns (shares: seq<array<byte>>, asked: nat)
      requires net.Valid() && nodeId in net.stores && ManifestOk(net.dir, net.Now(), m)
      requires m.groupId in w.groups && net.Now() == CollectingAt(w, id, nodeId, m, reshare, works, 0)
      modifies net
      ensures net.Valid() && old(net.states) <= net.states && old(net.actions) <= net.actions
      ensures asked <= |m.members| && net.Now() == CollectingAt(w, id, nodeId, m, reshare, works, asked)
      ensures |shares| == Working(works, asked) && (|shares| < m.threshold ==> asked == |m.members|)
      ensures forall i :: 0 <= i < asked ==> Working(works, i) < m.threshold
      ensures Contents(shares) == Shares(Fetched(w.groups[m.groupId], works, asked))
      ensures forall k :: 0 <= k < |shares| ==> fresh(shares[k])
      ensures forall k, l :: 0 <= k < l < |shares| ==> shares[k] != shares[l]
    {
      hide IsRun, Inv, ManifestOk, ShareOf, Fetched, CollectingAt, Shares, Net.Network.Valid;
      shares, asked := [], 0;
      FetchedStart(w.groups[m.groupId], works);
      while asked < |m.members| && |shares| < m.threshold
        invariant net.Valid() && old(net.states) <= net.states && old(net.actions) <= net.actions
        invariant asked <= |m.members| && net.Now() == CollectingAt(w, id, nodeId, m, reshare, works, asked)
        invariant ManifestOk(net.dir, net.Now(), m)
        invariant |shares| == Working(works, asked)
        invariant forall i :: 0 <= i < asked ==> Working(works, i) < m.threshold
        invariant Contents(shares) == Shares(Fetched(w.groups[m.groupId], works, asked))
        invariant forall k :: 0 <= k < |shares| ==> fresh(shares[k])
        invariant forall k, l :: 0 <= k < l < |shares| ==> shares[k] != shares[l]
      {
        var share := AskNext(m, asked, works, w, id, reshare);
        FetchedNext(w.groups[m.groupId], works, asked);
        if share.Some? {
          var buffer := Buffer(share.value);
          shares := shares + [buffer];
        }
        asked := asked + 1;
      }
    }

    /** Combines the collected shares and wipes them; what was combined stays. */
    method CombineAndWipe(shares: seq<array<byte>>) returns (r: Result<array<byte>, ClientError>)
      requires net.t.Valid() && net.t.expTable !in shares && net.t.logTable !in shares
      modifies shares
      ensures old(Combined(Contents(shares))).Err? ==> r == Err(BadShares(old(Combined(Contents(shares))).error))
      ensures old(Combined(Contents(shares))).Ok? ==>
        r.Ok? && fresh(r.value) && r.value[..] == old(Combined(Contents(shares))).value
      ensures forall k :: 0 <= k < |shares| ==> Wiped(shares[k])
    {
      hide Combined;
      var secret := Combine(net.t, shares);
      WipeAll(shares);
      r := if secret.Ok? then Ok(secret.value) else Err(BadShares(secret.error));
    }

    /** The collection by a manifest that was read, from the first request to the result. */
    method CollectBy(m: Manifest, works: seq<bool>, ghost w: World, ghost id: nat, ghost reshare: bool)
      returns (r: Result<array<byte>, ClientError>, ghost asked: nat)
      requires net.Valid() && nodeId in net.stores && ManifestOk(net.dir, net.Now(), m) && id !in w.ops
      requires m.groupId in w.groups && net.Now() == CollectingAt(w, id, nodeId, m, reshare, works, 0)
      modifies net
      ensures net.Valid() && old(net.states) <= net.states && old(net.actions) <= net.actions
      ensures (r.Err? ==> r == Err(TooFewAnswers)) && (r.Ok? <==> Working(works, |m.members|) >= m.threshold)
      ensures r.Err? ==> net.Now() == w
      ensures r.Ok? ==>
        && fresh(r.value) && r.value[..] == w.groups[m.groupId].secret
        && net.Now() == CollectingAt(w, id, nodeId, m, reshare, works, asked) && Working(works, asked) >= m.threshold
    {
      hide IsRun, Inv, ManifestOk, Enabled, Next, Fetched, CollectingAt, Shares, Combined, Working, Net.Network.Valid;
      var shares, n := CollectShares(m, works, w, id, reshare);
      asked := n;
      WorkingMonotone(works, n, |m.members|);
      if |shares| < m.threshold {
        StopStep(net.p, net.dir, w, id, nodeId, m, reshare, works, n);
        net.TakeQuietly(Stop(id));
        return Err(TooFewAnswers), n;
      }
      net.NowInv();
      CollectedSecret(net.dir, w, id, nodeId, m, reshare, works, n);
      r := CombineAndWipe(shares);
    }

    /** Reads the manifest, collects shares and combines them. A successful collection for a
        reshare stays open for the sharing that follows. */
    method Collect(name: Name, works: seq<bool>, ghost id: nat, ghost reshare: bool)
      returns (r: Result<array<byte>, ClientError>, ghost asked: nat)
      requires net.Valid() && nodeId in net.stores && id !in net.Now().ops
      modifies net
      ensures net.Valid() && old(net.states) <= net.states && old(net.actions) <= net.actions
      ensures name !in net.stores[nodeId].manifests ==> r == Err(NoManifest)
      ensures name in net.stores[nodeId].manifests ==>
        var m := net.stores[nodeId].manifests[name];
        (r.Err? ==> r == Err(TooFewAnswers)) && (r.Ok? <==> Working(works, |m.members|) >= m.threshold)
      ensures r.Err? ==> net.Now() == old(net.Now())
      ensures r.Ok? ==>
        var m := net.stores[nodeId].manifests[name];
        && fresh(r.value) && m.groupId in old(net.Now()).groups
        && r.value[..] == old(net.Now()).groups[m.groupId].secret
        && net.Now() == CollectingAt(old(net.Now()), id, nodeId, m, reshare, works, asked)
        && Working(works, asked) >= m.threshold
    {
      hide IsRun, Inv, ManifestOk, Enabled, Next, Fetched, CollectingAt, Working, Net.Network.Valid;
      asked := 0;
      ghost var w := net.Now();
      var row := net.stores[nodeId].GetManifest(name);
      if row.None? {
        return Err(NoManifest), 0;
      }
      net.NowInv();
      assert net.Tables()[nodeId] == w.stores[nodeId];
      BeginStep(net.p, net.dir, w, id, nodeId, name, reshare, works);
      net.TakeQuietly(BeginCollecting(id, nodeId, name, reshare));
      r, asked := CollectBy(row.value, works, w, id, reshare);
    }

    // --- Sharing out ---

    /** Seals a share for its holder. */
    method Seal(d: Deal, i: nat, share: array<byte>, a: Attempt, ghost g: Group)
      returns (row: Fragment, key: array<byte>)
      requires i < |d.members| && share[..] == ShareOf(g, i)
      ensures SealedRow(d, i, g, a, row) && fresh(key) && key[..] == a.key
    {
      key := Buffer(a.key);
      row := Fragment(d.members[i].pid, d.group, d.token, a.chainId, 0, d.threshold, |d.members|, key[..],
                      Encrypt(key[..], share[..], Aad(d.group, d.members[i].pid), a.nonce), d.members);
    }

    /** Hands a sealed share over: the first one to this node's own database if it keeps one. */
    method HandOver(d: Deal, i: nat, row: Fragment, a: Attempt, up: set<Endpoint>, keepFirst: bool, ghost id: nat,
                    ghost g: Group)
      returns (acked: bool)
      requires net.Valid() && Dealing(net.Now(), id, d, g, i) && i < |d.members| && SealedRow(d, i, g, a, row)
      requires keepFirst && i == 0 ==> d.members[0].nodeId == nodeId
      modifies net, net.stores.Values
      ensures net.Valid() && old(net.states) <= net.states && old(net.actions) <= net.actions
      ensures Drawn(old(net.Now()), net.Now(), {}, {})
      ensures acked <==> a.outcome.Delivered? && ((keepFirst && i == 0) || d.members[i].endpoint in up)
      ensures acked ==> Dealing(net.Now(), id, d, g, i + 1)
      ensures Pending(old(net.Now()), net.Now(), DealtOps(old(net.Now()), id, i, acked))
    {
      hide IsRun, Inv, Enabled, Next, Net.Network.Valid, Pending, Drawn, Dealing, DeliveredRow, DealtOps, SealedRow;
      net.NowInv();
      ghost var w := net.Now();
      DealDelivers(net.p, net.dir, w, id, d, g, i, a, row);
      var holder := Some(nodeId);
      if !(keepFirst && i == 0) {
        if d.members[i].endpoint !in up {
          DealStops(net.p, net.dir, w, id, d, g, i);
          net.TakeQuietly(Stop(id));
          return false;
        }
        holder := net.Resolve(d.members[i].endpoint);
      }
      net.TakeCustody(holder.value, row, a.outcome, id);
      acked := a.outcome.Delivered?;
    }

    /** One turn of the delivering loop: seal the share for its holder, hand it over, wipe key and share. */
    method DeliverOne(d: Deal, i: nat, share: array<byte>, sending: Sending, keepFirst: bool, ghost id: nat,
                      ghost g: Group)
      returns (acked: bool)
      requires net.Valid() && share != net.t.expTable && share != net.t.logTable
      requires Dealing(net.Now(), id, d, g, i) && i < |d.members| && share[..] == ShareOf(g, i)
      requires keepFirst && i == 0 ==> d.members[0].nodeId == nodeId
      modifies net, net.stores.Values, share
      ensures net.Valid() && old(net.states) <= net.states && old(net.actions) <= net.actions
      ensures Drawn(old(net.Now()), net.Now(), {}, {})
      ensures acked <==> Fate(d.members, i, sending, keepFirst).Delivered?
      ensures acked ==> Dealing(net.Now(), id, d, g, i + 1)
      ensures i < |sending.attempts| ==> Wiped(share)
      ensures Pending(old(net.Now()), net.Now(), DealtOps(old(net.Now()), id, i, acked))
    {
      hide IsRun, Inv, ShareOf, Enabled, Next, Net.Network.Valid, Pending, Drawn, Dealing, DealtOps, SealedRow, Wiped;
      if i >= |sending.attempts| {
        DealStops(net.p, net.dir, net.Now(), id, d, g, i);
        net.TakeQuietly(Stop(id));
        return false;
      }
      var row, key := Seal(d, i, share, sending.attempts[i], g);
      acked := HandOver(d, i, row, sending.attempts[i], sending.up, keepFirst, id, g);
      Wipe(key);
      Wipe(share);
    }

    /** Delivers the shares in order, until one is not acknowledged. */
    method DeliverAll(d: Deal, shares: seq<array<byte>>, sending: Sending, keepFirst: bool, ghost id: nat,
                      ghost g: Group)
      returns (failed: Option<nat>)
      requires net.Valid() && |shares| == |d.members| && net.t.expTable !in shares && net.t.logTable !in shares
      requires keepFirst ==> |d.members| > 0 && d.members[0].nodeId == nodeId
      requires Dealing(net.Now(), id, d, g, 0)
      requires forall i :: 0 <= i < |shares| ==> shares[i][..] == ShareOf(g, i)
      requires forall i, j :: 0 <= i < j < |shares| ==> shares[i] != shares[j]
      modifies net, net.stores.Values, shares
      ensures net.Valid() && old(net.states) <= net.states && old(net.actions) <= net.actions
      ensures Drawn(old(net.Now()), net.Now(), {}, {})
      ensures failed == FirstFailure(d.members, 0, sending, keepFirst)
      ensures failed.None? ==>
        Dealing(net.Now(), id, d, g, |d.members|) && forall k :: 0 <= k < |shares| ==> Wiped(shares[k])
      ensures Pending(old(net.Now()), net.Now(), AllDealtOps(old(net.Now()), id, |d.members|, failed.None?))
    {
      hide IsRun, Inv, ShareOf, Net.Network.Valid, Pending, Drawn, Dealing, DealtOps, AllDealtOps, Wiped;
      ghost var w := net.Now();
      DealStarts(w, id, d, g);
      for i := 0 to |d.members|
        invariant net.Valid() && old(net.states) <= net.states && old(net.actions) <= net.actions
        invariant FirstFailure(d.members, 0, sending, keepFirst) == FirstFailure(d.members, i, sending, keepFirst)
        invariant forall k :: i <= k < |shares| ==> shares[k][..] == ShareOf(g, k)
        invariant forall k :: 0 <= k < i ==> Wiped(shares[k])
        invariant Drawn(w, net.Now(), {}, {})
        invariant Dealing(net.Now(), id, d, g, i) && Pending(w, net.Now(), AllDealtOps(w, id, i, true))
      {
        ghost var w1 := net.Now();
        var acked := DeliverOne(d, i, shares[i], sending, keepFirst, id, g);
        DrawnTrans(w, w1, net.Now(), {}, {});
        DealGoesOn(w, w1, net.Now(), id, d, g, i, acked);
        if !acked {
          return Some(i);
        }
      }
      failed := None;
    }

    /** A sharing that cannot go on; a reshare's collection ends with it. */
    ghost method Abandon(id: nat, name: Name, data: Bytes, reshare: bool)
      requires net.Valid() && MayShare(net.Now(), id, nodeId, name, data, reshare)
      modifies net
      ensures net.Valid() && old(net.states) <= net.states && old(net.actions) <= net.actions
      ensures Pending(old(net.Now()), net.Now(), old(net.Now()).ops - {id}) && Drawn(old(net.Now()), net.Now(), {}, {})
    {
      hide IsRun, Net.Network.Valid, Enabled, Next, CollectResult, Collected, Frame, Drawn;
      NothingPending(net.Now(), id);
      if reshare {
        StopFacts(net.p, net.dir, net.Now(), id);
        net.TakeQuietly(Stop(id));
      }
    }

    /** The new group becomes known. */
    ghost method BeginDeal(name: Name, kind: string, d: Deal, pids: seq<Pid>, id: nat, g: Group, reshare: bool)
      requires net.Valid() && nodeId in net.stores && MayShare(net.Now(), id, nodeId, name, g.secret, reshare)
      requires SharingEnabled(net.dir, net.Now(), kind, d.group, g, pids)
      requires d == Deal(d.group, g.token, g.threshold, MembersFor(net.dir, g.holders, pids))
      modifies net
      ensures net.Valid() && old(net.states) <= net.states && old(net.actions) <= net.actions
      ensures Dealing(net.Now(), id, d, g, 0) && Drawn(old(net.Now()), net.Now(), {d.group}, set q | q in pids)
      ensures Pending(old(net.Now()), net.Now(),
        old(net.Now()).ops[id := Sharing(nodeId, name, kind, d.group, d.members, 0, reshare)])
    {
      hide IsRun, Net.Network.Valid, Enabled, Next, Frame, Drawn, MayShare, MembersFor, Inv;
      net.NowInv();
      SharingBegins(net.p, net.dir, net.Now(), id, nodeId, name, kind, d.group, g, pids, reshare);
      net.TakeQuietly(SharingAction(id, nodeId, name, kind, d.group, g, pids, reshare));
    }

    /** Delivers all shares, then commits the manifest. */
    method DealAndCommit(name: Name, kind: string, d: Deal, shares: seq<array<byte>>, sending: Sending, keepFirst: bool,
                         ghost w: World, ghost id: nat, ghost g: Group, ghost reshare: bool)
      returns (failed: Option<nat>)
      requires net.Valid() && |shares| == |d.members| && net.t.expTable !in shares && net.t.logTable !in shares
      requires keepFirst ==> |d.members| > 0 && d.members[0].nodeId == nodeId
      requires Dealing(net.Now(), id, d, g, 0)
      requires Pending(w, net.Now(), w.ops[id := Sharing(nodeId, name, kind, d.group, d.members, 0, reshare)])
      requires forall i :: 0 <= i < |shares| ==> shares[i][..] == ShareOf(g, i)
      requires forall i, j :: 0 <= i < j < |shares| ==> shares[i] != shares[j]
      modifies net, net.stores.Values, shares
      ensures net.Valid() && old(net.states) <= net.states && old(net.actions) <= net.actions
      ensures failed == FirstFailure(d.members, 0, sending, keepFirst) && Drawn(old(net.Now()), net.Now(), {}, {})
      ensures failed.Some? ==> Pending(w, net.Now(), w.ops - {id})
      ensures failed.None? ==>
        && net.Now().ops == w.ops - {id} && d.group in net.Now().groups && net.Now().groups[d.group] == g
        && Committed(w, net.Now(), nodeId, Manifest(name, kind, d.group, d.token, d.threshold, |d.members|, d.members))
    {
      hide IsRun, Inv, ShareOf, Net.Network.Valid, Pending, Drawn, Dealing, AllDealtOps, FirstFailure, Enabled, Next,
        Committed;
      ghost var w1 := net.Now();
      failed := DeliverAll(d, shares, sending, keepFirst, id, g);
      DealEnds(w, w1, net.Now(), id, Sharing(nodeId, name, kind, d.group, d.members, 0, reshare), d, g, failed.None?);
      if failed.None? {
        net.NowInv();
        ghost var w2 := net.Now();
        DealCommits(net.p, net.dir, w, w2, id, nodeId, name, kind, d, g, reshare);
        net.CommitManifest(nodeId, Manifest(name, kind, d.group, d.token, d.threshold, |d.members|, d.members), id);
        DrawnTrans(w1, w2, net.Now(), {}, {});
      }
    }

    method BuildMembers(holders: Holders, pids: seq<Pid>) returns (ms: seq<Member>)
      requires |pids| >= |holders|
      ensures ms == MembersOf(holders, pids)
    {
      ms := [];
      for i := 0 to |holders|
        invariant |ms| == i && forall k :: 0 <= k < i ==> ms[k] == Member(pids[k], holders[k].0, holders[k].1)
      {
        ms := ms + [Member(pids[i], holders[i].0, holders[i].1)];
      }
    }

    /** Splits the bytes, deals the shares out to the holders and commits the manifest last. */
    method Distribute(name: Name, kind: string, holders: Holders, data: array<byte>, threshold: int, draws: Draws,
                      keepFirst: bool, ghost id: nat, ghost reshare: bool)
      returns (failure: Option<ClientError>)
      requires net.Valid() && nodeId in net.stores && kind != ""
      requires KnownHolders(net.dir, holders) && FreshDraws(net.Now(), draws, threshold)
      requires keepFirst ==> |holders| > 0 && holders[0].0 == nodeId
      requires MayShare(net.Now(), id, nodeId, name, data[..], reshare)
      modifies net, net.stores.Values
      ensures net.Valid() && old(net.states) <= net.states && old(net.actions) <= net.actions
      ensures failure.None? <==>
        && Preparable(data[..], threshold, draws, holders)
        && FirstFailure(MembersOf(holders, draws.pids), 0, draws.sending, keepFirst).None?
      ensures failure.Some? ==>
        failure.value.BadSharing? || failure.value.NoRandomness? || failure.value.DeliveryFailed?
      ensures net.Now().ops == old(net.Now()).ops - {id} && DrawnBy(old(net.Now()), net.Now(), draws)
      ensures failure.Some? ==> Frame(old(net.Now()), net.Now())
      ensures failure.None? ==>
        && draws.group in net.Now().groups
        && net.Now().groups[draws.group].secret == data[..]
        && Committed(old(net.Now()), net.Now(), nodeId,
             Manifest(name, kind, draws.group, draws.token, threshold, |holders|, MembersOf(holders, draws.pids)))
    {
      hide IsRun, Inv, ShareOf, Net.Network.Valid, Frame, DrawnBy, Drawn, Dealing, FirstFailure, Committed, MayShare,
        SharingEnabled, KnownHolders, ShareAt;
      ghost var w0 := net.Now();
      var rows := if |draws.entropy| > data.Length then draws.entropy[..data.Length] else draws.entropy;
      var shares := Shamir.Split(net.t, data[..], |holders|, threshold, rows);
      if shares.Err? {
        Abandon(id, name, data[..], reshare);
        NothingDrawn(w0, net.Now(), draws);
        return Some(BadSharing(shares.error));
      }
      if |draws.pids| < |holders| {
        Abandon(id, name, data[..], reshare);
        NothingDrawn(w0, net.Now(), draws);
        return Some(NoRandomness);
      }
      var ms := BuildMembers(holders, draws.pids);
      ghost var w, g := net.Now(), GroupFor(data[..], threshold, draws, holders);
      PreparedGroup(net.dir, w, id, kind, data[..], threshold, draws, holders);
      var d := Deal(draws.group, draws.token, threshold, ms);
      BeginDeal(name, kind, d, draws.pids[..|holders|], id, g, reshare);
      ghost var w1 := net.Now();
      var failed := DealAndCommit(name, kind, d, shares.value, draws.sending, keepFirst, w, id, g, reshare);
      DrawnWithin(w, w1, net.Now(), draws, |holders|);
      failure := if failed.Some? then Some(DeliveryFailed(failed.value)) else None;
    }

    /** Pings the listed nodes in order until enough others answer. */
    method ReachablePeers(listing: Option<Holders>, up: set<Endpoint>, need: nat)
      returns (r: Result<Holders, ClientError>)
      requires need > 0
      ensures listing.None? ==> r == Err(NoDirectory)
      ensures listing.Some? ==>
        var found := Reachable(listing.value, nodeId, up);
        r == if |found| < need then Err(TooFewPeers) else Ok(found[..need])
    {
      if listing.None? {
        return Err(NoDirectory);
      }
      var nodes := listing.value;
      var reachable: Holders := [];
      for i := 0 to |nodes|
        invariant reachable == Reachable(nodes[..i], nodeId, up) && |reachable| < need
      {
        assert nodes[..i + 1][..i] == nodes[..i];
        if nodes[i].0 == nodeId || nodes[i].1 !in up {
          continue;
        }
        reachable := reachable + [nodes[i]];
        if |reachable| == need {
          assert reachable == Reachable(nodes[..i + 1], nodeId, up);
          ReachablePrefix(nodes, i + 1, nodeId, up);
          assert reachable == Reachable(nodes, nodeId, up)[..need];
          return Ok(reachable);
        }
      }
      assert nodes[..|nodes|] == nodes;
      r := Err(TooFewPeers);
    }

    /** Split, for the user or for a reshare: one share stays here, the others go to reachable peers. */
    method SplitFor(name: Name, data: array<byte>, threshold: int, total: int, listing: Option<Holders>, draws: Draws,
                    ghost id: nat, ghost reshare: bool)
      returns (failure: Option<ClientError>)
      requires net.Valid() && Registered() && FreshDraws(net.Now(), draws, threshold)
      requires listing.Some? ==> KnownHolders(net.dir, listing.value)
      requires MayShare(net.Now(), id, nodeId, name, data[..], reshare)
      modifies net, net.stores.Values
      ensures net.Valid() && old(net.states) <= net.states && old(net.actions) <= net.actions
      ensures failure.None? <==> SplitWorks((nodeId, endpoint), data[..], threshold, total, listing, draws)
      ensures failure == Some(TotalTooSmall) <==> total < 2
      ensures failure == Some(NoDirectory) <==> total >= 2 && listing.None?
      ensures failure == Some(TooFewPeers) <==>
        total >= 2 && listing.Some? && |Reachable(listing.value, nodeId, draws.sending.up)| < total - 1
      ensures net.Now().ops == old(net.Now()).ops - {id} && DrawnBy(old(net.Now()), net.Now(), draws)
      ensures failure.Some? ==> Frame(old(net.Now()), net.Now())
      ensures failure.None? ==>
        && draws.group in net.Now().groups
        && net.Now().groups[draws.group].secret == data[..]
        && Committed(old(net.Now()), net.Now(), nodeId,
             Manifest(name, "secret", draws.group, draws.token, threshold, total,
                      MembersOf(SplitHolders((nodeId, endpoint), total, listing.value, draws), draws.pids)))
    {
      hide IsRun, Inv, Net.Network.Valid, Frame, DrawnBy, Drawn, FirstFailure, Committed, MayShare, KnownHolders,
        Reachable, Preparable, FreshDraws;
      ghost var w0 := net.Now();
      if total < 2 {
        Abandon(id, name, data[..], reshare);
        NothingDrawn(w0, net.Now(), draws);
        return Some(TotalTooSmall);
      }
      var peers := ReachablePeers(listing, draws.sending.up, total - 1);
      if peers.Err? {
        Abandon(id, name, data[..], reshare);
        NothingDrawn(w0, net.Now(), draws);
        return Some(peers.error);
      }
      ReachableKnown(net.dir, listing.value, (nodeId, endpoint), draws.sending.up, total - 1);
      failure := Distribute(name, "secret", [(nodeId, endpoint)] + peers.value,
                            data, threshold, draws, true, id, reshare);
    }

    /** The same over the trusted mesh, with no share kept here. */
    method DistributeBackup(name: Name, data: array<byte>, threshold: int, mesh: Holders, draws: Draws, ghost id: nat,
                            ghost reshare: bool)
      returns (failure: Option<ClientError>)
      requires net.Valid() && Registered() && FreshDraws(net.Now(), draws, threshold) && KnownHolders(net.dir, mesh)
      requires MayShare(net.Now(), id, nodeId, name, data[..], reshare)
      modifies net, net.stores.Values
      ensures net.Valid() && old(net.states) <= net.states && old(net.actions) <= net.actions
      ensures failure.None? <==> BackupWorks(data[..], threshold, mesh, draws)
      ensures failure == Some(TooFewPeers) <==> |mesh| < threshold
      ensures net.Now().ops == old(net.Now()).ops - {id} && DrawnBy(old(net.Now()), net.Now(), draws)
      ensures failure.Some? ==> Frame(old(net.Now()), net.Now())
      ensures failure.None? ==>
        && draws.group in net.Now().groups
        && net.Now().groups[draws.group].secret == data[..]
        && Committed(old(net.Now()), net.Now(), nodeId,
             Manifest(name, "backup", draws.group, draws.token, threshold, |mesh|, MembersOf(mesh, draws.pids)))
    {
      hide IsRun, Inv, Net.Network.Valid, Frame, DrawnBy, Drawn, FirstFailure, Committed, MayShare, KnownHolders,
        FreshDraws;
      ghost var w0 := net.Now();
      if |mesh| < threshold {
        Abandon(id, name, data[..], reshare);
        NothingDrawn(w0, net.Now(), draws);
        return Some(TooFewPeers);
      }
      failure := Distribute(name, "backup", mesh, data, threshold, draws, false, id, reshare);
    }

    // --- What the user asks for ---

    /** Stores a secret: when it succeeds the name holds exactly these bytes, and nothing else
        changes; when it fails no name changes. */
    method Split(name: Name, data: array<byte>, threshold: int, total: int, listing: Option<Holders>, draws: Draws)
      returns (failure: Option<ClientError>)
      requires net.Valid() && Registered() && FreshDraws(net.Now(), draws, threshold)
      requires listing.Some? ==> KnownHolders(net.dir, listing.value)
      modifies net, net.stores.Values
      ensures net.Valid() && old(net.states) <= net.states && old(net.actions) <= net.actions
      ensures net.Now().ops == old(net.Now()).ops && data[..] == old(data[..])
      ensures failure.None? <==> SplitWorks((nodeId, endpoint), data[..], threshold, total, listing, draws)
      ensures failure.None? <==>
        && 2 <= threshold <= total <= 255 && data[..] != [] && listing.Some?
        && |set i | 0 <= i < |listing.value| && listing.value[i].0 != nodeId && listing.value[i].1 in draws.sending.up|
             >= total - 1
        && |draws.entropy| >= data.Length && |draws.pids| >= total && AllAcknowledged(draws.sending, total)
      ensures failure == Some(TotalTooSmall) <==> total < 2
      ensures failure == Some(NoDirectory) <==> total >= 2 && listing.None?
      ensures failure == Some(TooFewPeers) <==>
        && total >= 2 && listing.Some?
        && |set i | 0 <= i < |listing.value| && listing.value[i].0 != nodeId && listing.value[i].1 in draws.sending.up|
             < total - 1
      ensures failure.Some? ==> net.stores[nodeId].manifests == old(net.stores[nodeId].manifests)
      ensures failure.None? ==>
        && name in net.stores[nodeId].manifests
        && var m := net.stores[nodeId].manifests[name];
        && net.stores[nodeId].manifests == old(net.stores[nodeId].manifests)[name := m]
        && m.kind == "secret" && m.groupId == draws.group && m.threshold == threshold && m.total == total == |m.members|
        && m.members[0] == Member(draws.pids[0], nodeId, endpoint)
        && forall i :: 1 <= i < total ==>
             && m.members[i].pid == draws.pids[i] && m.members[i].nodeId != nodeId
             && (m.members[i].nodeId, m.members[i].endpoint) in listing.value
      ensures Stored(old(net.Now()), net.Now(), nodeId, name, if failure.None? then Some(data[..]) else None)
    {
      hide IsRun, Inv, Net.Network.Valid, Frame, DrawnBy, Drawn, Committed, FirstFailure, Reachable, KnownHolders,
        FreshDraws, Value, SplitWorks, AllAcknowledged;
      SplitWorksIff((nodeId, endpoint), data[..], threshold, total, listing, draws);
      ghost var w := net.Now();
      net.NowInv();
      ghost var id := FreshId(w);
      assert w.ops - {id} == w.ops;
      assert net.Tables()[nodeId] == w.stores[nodeId];
      failure := SplitFor(name, data, threshold, total, listing, draws, id, false);
      net.NowInv();
      assert net.Tables()[nodeId] == net.Now().stores[nodeId];
      if failure.None? {
        SplitHoldersUp((nodeId, endpoint), total, listing.value, draws);
        ghost var m := Manifest(name, "secret", draws.group, draws.token, threshold, total,
          MembersOf(SplitHolders((nodeId, endpoint), total, listing.value, draws), draws.pids));
        CommittedStores(net.dir, w, net.Now(), nodeId, m);
        ManifestsNow(w, net.Now(), nodeId, m);
      } else {
        NothingStored(net.dir, w, net.Now(), nodeId, name);
        ManifestsNow(w, net.Now(), nodeId, Manifest(name, "", "", "", 0, 0, []));
      }
    }

    /** Stores a backup on the mesh, with the same promise. */
    method Backup(name: Name, data: array<byte>, threshold: int, mesh: Holders, draws: Draws)
      returns (failure: Option<ClientError>)
      requires net.Valid() && Registered() && FreshDraws(net.Now(), draws, threshold) && KnownHolders(net.dir, mesh)
      modifies net, net.stores.Values
      ensures net.Valid() && old(net.states) <= net.states && old(net.actions) <= net.actions
      ensures net.Now().ops == old(net.Now()).ops && data[..] == old(data[..])
      ensures failure.None? <==> BackupWorks(data[..], threshold, mesh, draws)
      ensures failure.None? <==>
        && 2 <= threshold <= |mesh| <= 255 && data[..] != []
        && (forall i :: 0 <= i < |mesh| ==> mesh[i].1 in draws.sending.up)
        && |draws.entropy| >= data.Length && |draws.pids| >= |mesh| && AllAcknowledged(draws.sending, |mesh|)
      ensures failure == Some(TooFewPeers) <==> |mesh| < threshold
      ensures failure.Some? ==> net.stores[nodeId].manifests == old(net.stores[nodeId].manifests)
      ensures failure.None? ==>
        && name in net.stores[nodeId].manifests
        && var m := net.stores[nodeId].manifests[name];
        && net.stores[nodeId].manifests == old(net.stores[nodeId].manifests)[name := m]
        && m.kind == "backup" && m.groupId == draws.group && m.threshold == threshold
        && m.total == |mesh| == |m.members|
        && forall i :: 0 <= i < |mesh| ==> m.members[i] == Member(draws.pids[i], mesh[i].0, mesh[i].1)
      ensures Stored(old(net.Now()), net.Now(), nodeId, name, if failure.None? then Some(data[..]) else None)
    {
      hide IsRun, Inv, Net.Network.Valid, Frame, DrawnBy, Drawn, Committed, FirstFailure, KnownHolders, FreshDraws,
        Value, BackupWorks, AllAcknowledged;
      BackupWorksIff(data[..], threshold, mesh, draws);
      ghost var w := net.Now();
      net.NowInv();
      ghost var id := FreshId(w);
      assert w.ops - {id} == w.ops;
      assert net.Tables()[nodeId] == w.stores[nodeId];
      failure := DistributeBackup(name, data, threshold, mesh, draws, id, false);
      net.NowInv();
      assert net.Tables()[nodeId] == net.Now().stores[nodeId];
      if failure.None? {
        ghost var m := Manifest(name, "backup", draws.group, draws.token, threshold, |mesh|,
                                MembersOf(mesh, draws.pids));
        CommittedStores(net.dir, w, net.Now(), nodeId, m);
        ManifestsNow(w, net.Now(), nodeId, m);
      } else {
        NothingStored(net.dir, w, net.Now(), nodeId, name);
        ManifestsNow(w, net.Now(), nodeId, Manifest(name, "", "", "", 0, 0, []));
      }
    }

    /** Gets a secret back: exactly the bytes stored under its name, if and only if at least
        `threshold` of the manifest's members answer; no database changes. */
    method Reconstruct(name: Name, works: seq<bool>) returns (r: Result<array<byte>, ClientError>)
      requires net.Valid() && Registered()
      modifies net
      ensures net.Valid() && old(net.states) <= net.states
      ensures old(net.actions) <= net.actions && net.Now() == old(net.Now())
      ensures Value(net.Now(), nodeId, name).None? ==> r == Err(NoManifest)
      ensures Value(net.Now(), nodeId, name).Some? ==>
        var m := net.stores[nodeId].manifests[name];
        if |set k | 0 <= k < |m.members| && k < |works| && works[k]| >= m.threshold
        then r.Ok? && fresh(r.value) && Value(net.Now(), nodeId, name) == Some(r.value[..])
        else r == Err(TooFewAnswers)
    {
      hide IsRun, Inv, Net.Network.Valid, CollectingAt, Enabled, Next;
      ghost var w := net.Now();
      net.NowInv();
      ManifestGroups(net.dir, w);
      assert net.Tables()[nodeId] == w.stores[nodeId];
      ghost var id := FreshId(w);
      ghost var asked;
      if name in net.stores[nodeId].manifests {
        WorkingCount(works, |net.stores[nodeId].manifests[name].members|);
      }
      r, asked := Collect(name, works, id, false);
      if r.Ok? {
        StopStep(net.p, net.dir, w, id, nodeId, net.stores[nodeId].manifests[name], false, works, asked);
        net.TakeQuietly(Stop(id));
      }
    }
  }
}
