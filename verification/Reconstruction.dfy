/** From the custody invariant and the sharing theorem: shares are never lost or changed, every
    stored manifest is recoverable from any `threshold` of its members, and a reconstruction
    returns the bytes of the manifest it read. */
module Reconstruction {
  import opened Wrappers
  import opened Ids
  import opened Shamir
  import opened SharingTheorems
  import opened Store
  import opened Custody
  import opened CustodySafety

  // --- Shares are never lost or changed ---

  /** Once delivered, a share is always held by some row of its holder, and every row that the
      holder has for the group opens to it. */
  lemma DeliveredShareIsHeld(dir: Directory, w: World, gid: GroupId, i: nat)
    requires Inv(dir, w) && Slot(gid, i) in w.live
    ensures gid in w.groups && i < |w.groups[gid].holders| && w.groups[gid].holders[i] in w.stores
    ensures var rows := w.stores[w.groups[gid].holders[i]].fragments;
      && (exists pid :: pid in rows && rows[pid].groupId == gid)
      && (forall pid :: pid in rows && rows[pid].groupId == gid ==>
            rows[pid].pid == pid && rows[pid].Open() == Some(ShareOf(w.groups[gid], i))
            && rows[pid].groupToken == w.groups[gid].token)
  {
    hide RowsOk, ManifestsOk, OpsOk, ShareOf, MembersOk;
    assert SlotHeld(w, Slot(gid, i));
    var g := w.groups[gid];
    var n := g.holders[i];
    assert GroupOk(dir, g);
    TheRow(dir, w, n, w.live[Slot(gid, i)]);
    forall pid | pid in w.stores[n].fragments && w.stores[n].fragments[pid].groupId == gid
      ensures w.stores[n].fragments[pid].pid == pid && w.stores[n].fragments[pid].Open() == Some(ShareOf(g, i))
      ensures w.stores[n].fragments[pid].groupToken == g.token
    {
      TheRow(dir, w, n, pid);
    }
  }

  // --- Collecting shares ---

  /** The members whose answer was a share, in the order asked. */
  function Answered(fetched: seq<Option<Bytes>>): (r: seq<nat>)
    ensures forall k :: 0 <= k < |r| ==> r[k] < |fetched|
    ensures forall k, l :: 0 <= k < l < |r| ==> r[k] < r[l]
  {
    if fetched == [] then []
    else
      var before := Answered(fetched[..|fetched| - 1]);
      if fetched[|fetched| - 1].Some? then before + [|fetched| - 1] else before
  }

  lemma {:induction false} SharesArePicked(dir: Directory, g: Group, fetched: seq<Option<Bytes>>)
    requires GroupOk(dir, g) && FetchedOk(g, fetched)
    ensures Shares(fetched) == Picked(g.secret, g.rows, Answered(fetched))
    decreases |fetched|
  {
    if fetched != [] {
      SharesArePicked(dir, g, fetched[..|fetched| - 1]);
      var i := |fetched| - 1;
      if fetched[i].Some? {
        assert fetched[i].value == ShareAt(g.secret, g.rows, i);
      }
    }
  }

  /** What a finished collection returns: the secret if and only if enough members answered. */
  lemma CollectionReturnsSecret(dir: Directory, w: World, op: Op)
    requires Inv(dir, w) && op.Collecting? && OpOk(dir, w, op) && Collected(op.manifest, op.fetched)
    ensures CollectResult(op.manifest, op.fetched)
         == if |Answered(op.fetched)| >= op.manifest.threshold then Ok(op.expected) else Err(None)
  {
    hide Combined, MembersOk, RowsOk, ManifestsOk, OpsOk, SlotsHeld;
    var g := w.groups[op.manifest.groupId];
    assert GroupOk(dir, g);
    SharesArePicked(dir, g, op.fetched);
    if |Answered(op.fetched)| >= op.manifest.threshold {
      RoundTrip(g.secret, g.threshold, g.rows, Answered(op.fetched));
    }
  }

  // --- Manifests ---

  /** The member's node has this row for the manifest's group. */
  ghost predicate RowAt(w: World, m: Manifest, i: nat, pid: Pid)
    requires i < |m.members|
  {
    && m.members[i].nodeId in w.stores && pid in w.stores[m.members[i].nodeId].fragments
    && w.stores[m.members[i].nodeId].fragments[pid].groupId == m.groupId
  }

  /** What a member's row opens to. */
  ghost function OpenedRow(w: World, m: Manifest, i: nat, pid: Pid): Bytes {
    if i < |m.members| && RowAt(w, m, i, pid) && w.stores[m.members[i].nodeId].fragments[pid].Open().Some?
    then w.stores[m.members[i].nodeId].fragments[pid].Open().value else []
  }

  /** The shares that the chosen members' chosen rows open to. */
  ghost function OpenedRows(w: World, m: Manifest, picks: seq<nat>, pids: seq<Pid>): (r: seq<Bytes>)
    requires |pids| == |picks|
    ensures |r| == |picks|
  {
    seq(|picks|, k requires 0 <= k < |picks| => OpenedRow(w, m, picks[k], pids[k]))
  }

  ghost predicate MemberHolds(w: World, m: Manifest, i: nat)
    requires i < |m.members|
  {
    exists pid :: RowAt(w, m, i, pid)
  }

  lemma TheGroup(dir: Directory, w: World, gid: GroupId)
    requires Inv(dir, w) && gid in w.groups
    ensures GroupOk(dir, w.groups[gid])
  {
  }

  lemma ManifestHolders(dir: Directory, w: World, m: Manifest)
    requires ManifestOk(dir, w, m)
    ensures m.groupId in w.groups && |m.members| == |w.groups[m.groupId].holders| == m.total
    ensures m.threshold == w.groups[m.groupId].threshold
    ensures forall i :: 0 <= i < |m.members| ==>
      m.members[i].nodeId == w.groups[m.groupId].holders[i] && Slot(m.groupId, i) in w.live
  {
  }

  lemma PickedByShareOf(dir: Directory, g: Group, picks: seq<nat>, shares: seq<Bytes>)
    requires GroupOk(dir, g) && |shares| == |picks|
    requires forall k :: 0 <= k < |picks| ==> picks[k] < |g.holders| && shares[k] == ShareOf(g, picks[k])
    ensures shares == Picked(g.secret, g.rows, picks)
  {
  }

  /** Every stored manifest - whatever sharings, resharings, mutations and notices are under way or
      were cut short - lists holders that all have their share, and any `threshold` of them, by
      any rows they have for the group, combine to the secret. */
  lemma StoredManifestIsRecoverable(dir: Directory, w: World, n: NodeId, name: Name, picks: seq<nat>, pids: seq<Pid>)
    requires Inv(dir, w) && n in w.stores && name in w.stores[n].manifests
    requires var m := w.stores[n].manifests[name];
      && (forall k, l :: 0 <= k < l < |picks| ==> picks[k] != picks[l])
      && |picks| == |pids| >= m.threshold
      && (forall k :: 0 <= k < |picks| ==> picks[k] < |m.members| && RowAt(w, m, picks[k], pids[k]))
    ensures var m := w.stores[n].manifests[name];
      && 2 <= m.threshold <= m.total == |m.members| <= 255
      && (forall i :: 0 <= i < |m.members| ==> MemberHolds(w, m, i))
      && m.groupId in w.groups && Combined(OpenedRows(w, m, picks, pids)) == Ok(w.groups[m.groupId].secret)
  {
    hide Inv, ShareOf, Combined, MembersOk;
    var m := w.stores[n].manifests[name];
    TheManifest(dir, w, n, name);
    ManifestHolders(dir, w, m);
    var g := w.groups[m.groupId];
    TheGroup(dir, w, m.groupId);
    forall i | 0 <= i < |m.members|
      ensures MemberHolds(w, m, i)
    {
      DeliveredShareIsHeld(dir, w, m.groupId, i);
      var pid :| pid in w.stores[g.holders[i]].fragments && w.stores[g.holders[i]].fragments[pid].groupId == m.groupId;
      assert RowAt(w, m, i, pid);
    }
    forall k | 0 <= k < |picks|
      ensures OpenedRows(w, m, picks, pids)[k] == ShareOf(g, picks[k])
    {
      DeliveredShareIsHeld(dir, w, m.groupId, picks[k]);
    }
    PickedByShareOf(dir, g, picks, OpenedRows(w, m, picks, pids));
    RoundTrip(g.secret, g.threshold, g.rows, picks);
  }
}
