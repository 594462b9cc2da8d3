/** The orchestrator's route table and hash-chain anchors. */
module Orchestrator {
  import opened Ids
  import opened Shamir
  import opened HashChain

  datatype RouteEntry = RouteEntry(pid: Pid, nodeId: NodeId, endpoint: Endpoint, epoch: nat, chainId: ChainId)

  datatype Message =
    | Announce(nodeId: NodeId, pid: Pid, endpoint: Endpoint, chainId: ChainId, chainTip: Bytes)
    | Ack(nodeId: NodeId, oldPid: Pid, newPid: Pid, epoch: nat, cold: bool, chainId: ChainId, seedUsed: Bytes)

  datatype Table = Table(routes: map<Pid, RouteEntry>, anchors: map<ChainId, Bytes>, epoch: nat)

  /** The route table after a message. */
  function RoutesAfter(routes: map<Pid, RouteEntry>, m: Message): map<Pid, RouteEntry> {
    match m
    case Announce(n, pid, endpoint, chain, _) => routes[pid := RouteEntry(pid, n, endpoint, 0, chain)]
    case Ack(n, oldPid, newPid, epoch, _, chain, _) =>
      var endpoint := if oldPid in routes then routes[oldPid].endpoint else n;
      (routes - {oldPid})[newPid := RouteEntry(newPid, n, endpoint, epoch, chain)]
  }

  /** The anchors after a message; a scheduled ack leaves them alone. */
  function AnchorsAfter(sha: Hash, anchors: map<ChainId, Bytes>, m: Message): map<ChainId, Bytes> {
    match m
    case Announce(_, _, _, chain, tip) => anchors[chain := tip]
    case Ack(_, _, _, _, cold, chain, seed) =>
      if cold && chain in anchors then anchors[chain := NextAnchor(sha, anchors[chain], seed)] else anchors
  }

  function After(sha: Hash, t: Table, m: Message): Table {
    Table(RoutesAfter(t.routes, m), AnchorsAfter(sha, t.anchors, m), NextEpoch(t.epoch))
  }

  class Orchestrator {
    var routes: map<Pid, RouteEntry>
    var chainAnchors: map<ChainId, Bytes>
    var epoch: nat
    constructor ()
      ensures State() == Table(map[], map[], 0)
    {
      routes, chainAnchors, epoch := map[], map[], 0;
    }

    function State(): Table
      reads this
    {
      Table(routes, chainAnchors, epoch)
    }

    method BroadcastDelta()
      modifies `epoch
      ensures epoch == NextEpoch(old(epoch))
    {
      epoch := NextEpoch(epoch);
    }

    method AnnounceRoute(sha: Hash, a: Message)
      requires a.Announce?
      modifies this
      ensures State() == After(sha, old(State()), a)
      ensures routes == old(routes)[a.pid := RouteEntry(a.pid, a.nodeId, a.endpoint, 0, a.chainId)]
      ensures chainAnchors == old(chainAnchors)[a.chainId := a.chainTip]
      ensures epoch == (old(epoch) + 1) % 0x1_0000_0000_0000_0000
    {
      var entry := RouteEntry(a.pid, a.nodeId, a.endpoint, 0, a.chainId);
      routes := routes[a.pid := entry];
      chainAnchors := chainAnchors[a.chainId := a.chainTip];
      BroadcastDelta();
    }

    /** Verifies a cold mutation's seed after the fact, then moves the route. */
    method AckMutation(sha: Hash, ack: Message)
      requires ack.Ack?
      modifies this
      ensures State() == After(sha, old(State()), ack)
      ensures chainAnchors
        == if ack.cold && ack.chainId in old(chainAnchors) && ack.seedUsed == sha(old(chainAnchors)[ack.chainId])
           then old(chainAnchors)[ack.chainId := ack.seedUsed] else old(chainAnchors)
      ensures ack.newPid in routes && routes - {ack.newPid} == old(routes) - {ack.oldPid, ack.newPid}
      ensures routes[ack.newPid] == RouteEntry(ack.newPid, ack.nodeId,
        if ack.oldPid in old(routes) then old(routes)[ack.oldPid].endpoint else ack.nodeId, ack.epoch, ack.chainId)
      ensures epoch == (old(epoch) + 1) % 0x1_0000_0000_0000_0000
    {
      if ack.cold {
        if ack.chainId in chainAnchors {
          var ok := VerifyStep(sha, ack.seedUsed, chainAnchors[ack.chainId]);
          if ok {
            chainAnchors := chainAnchors[ack.chainId := ack.seedUsed];
          }
        }
      }
      assert chainAnchors == AnchorsAfter(sha, old(chainAnchors), ack);
      var endpoint := ack.nodeId;
      if ack.oldPid in routes {
        endpoint := routes[ack.oldPid].endpoint;
      }
      routes := routes - {ack.oldPid};
      var entry := RouteEntry(ack.newPid, ack.nodeId, endpoint, ack.epoch, ack.chainId);
      routes := routes[ack.newPid := entry];
      BroadcastDelta();
    }
  }
}
