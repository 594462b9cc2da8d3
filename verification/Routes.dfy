/** The route table against what the nodes really hold, over every run in which each node's
    messages arrive in order and none is lost. */
module Routes {
  import opened Ids
  import opened Shamir
  import opened HashChain
  import opened Orchestrator

  datatype Holding = Holding(epoch: nat, chainId: ChainId)

  datatype Net = Net(
    held: map<NodeId, map<Pid, Holding>>,    // per node: the fragments it holds
    queues: map<NodeId, seq<Message>>,       // per node: messages sent and not yet processed
    owner: map<Pid, NodeId>,                 // every PID ever in use, with the node that made it
    table: Table)

  datatype Action =
    | Acquire(n: NodeId, pid: Pid, chainId: ChainId, tip: Bytes)
    | Mutate(n: NodeId, pid: Pid, newPid: Pid, cold: bool, seed: Bytes)
    | Process(n: NodeId)

  /** New PIDs are fresh: random IDs and PID rotations never repeat. */
  ghost predicate Enabled(s: Net, a: Action) {
    && a.n in s.held && a.n in s.queues
    && match a
       case Acquire(n, pid, _, _) => pid !in s.owner
       case Mutate(n, pid, newPid, _, _) => pid in s.held[n] && newPid !in s.owner
       case Process(n) => s.queues[n] != []
  }

  ghost function Next(sha: Hash, endpoints: map<NodeId, Endpoint>, s: Net, a: Action): Net
    requires Enabled(s, a) && a.n in endpoints
  {
    var n := a.n;
    match a
    case Acquire(_, pid, chain, tip) =>
      s.(held := s.held[n := s.held[n][pid := Holding(0, chain)]],
         queues := s.queues[n := s.queues[n] + [Announce(n, pid, endpoints[n], chain, tip)]],
         owner := s.owner[pid := n])
    case Mutate(_, pid, newPid, cold, seed) =>
      var h := s.held[n][pid];
      var epoch := NextEpoch(h.epoch);
      s.(held := s.held[n := (s.held[n] - {pid})[newPid := Holding(epoch, h.chainId)]],
         queues := s.queues[n := s.queues[n] + [Ack(n, pid, newPid, epoch, cold, h.chainId, seed)]],
         owner := s.owner[newPid := n])
    case Process(_) =>
      s.(queues := s.queues[n := s.queues[n][1..]], table := After(sha, s.table, s.queues[n][0]))
  }

  /** The routes that node n's holdings call for. */
  ghost function Expected(endpoint: Endpoint, n: NodeId, held: map<Pid, Holding>): map<Pid, RouteEntry> {
    map pid | pid in held :: RouteEntry(pid, n, endpoint, held[pid].epoch, held[pid].chainId)
  }

  /** The part of the table that belongs to node n. */
  ghost function Local(routes: map<Pid, RouteEntry>, owner: map<Pid, NodeId>, n: NodeId): map<Pid, RouteEntry> {
    map pid | pid in routes && pid in owner && owner[pid] == n :: routes[pid]
  }

  /** The table once a list of messages has been processed. */
  ghost function Flush(routes: map<Pid, RouteEntry>, ms: seq<Message>): map<Pid, RouteEntry>
    decreases |ms|
  {
    if ms == [] then routes else Flush(RoutesAfter(routes, ms[0]), ms[1..])
  }

  /** Node n only writes about PIDs of its own. */
  ghost predicate OwnMessage(owner: map<Pid, NodeId>, n: NodeId, m: Message) {
    match m
    case Announce(_, pid, _, _, _) => pid in owner && owner[pid] == n
    case Ack(_, oldPid, newPid, _, _, _, _) =>
      oldPid in owner && owner[oldPid] == n && newPid in owner && owner[newPid] == n
  }

  /** Processing what node n still has queued would bring its part of the table up to date. */
  ghost predicate UpToDate(endpoint: Endpoint, routes: map<Pid, RouteEntry>, owner: map<Pid, NodeId>, n: NodeId,
                           queue: seq<Message>, held: map<Pid, Holding>)
  {
    && (forall i :: 0 <= i < |queue| ==> OwnMessage(owner, n, queue[i]))
    && (forall pid :: pid in held ==> pid in owner && owner[pid] == n)
    && Flush(Local(routes, owner, n), queue) == Expected(endpoint, n, held)
  }

  ghost predicate Inv(endpoints: map<NodeId, Endpoint>, s: Net) {
    && s.held.Keys == s.queues.Keys == endpoints.Keys
    && s.table.routes.Keys <= s.owner.Keys
    && (forall pid :: pid in s.owner ==> s.owner[pid] in s.held)
    && (forall n :: n in s.held ==> UpToDate(endpoints[n], s.table.routes, s.owner, n, s.queues[n], s.held[n]))
  }

  lemma {:induction false} FlushSnoc(routes: map<Pid, RouteEntry>, ms: seq<Message>, m: Message)
    ensures Flush(routes, ms + [m]) == RoutesAfter(Flush(routes, ms), m)
    decreases |ms|
  {
    if ms == [] {
      assert (ms + [m])[1..] == [];
    } else {
      assert (ms + [m])[1..] == ms[1..] + [m];
      FlushSnoc(RoutesAfter(routes, ms[0]), ms[1..], m);
    }
  }

  lemma LocalAfter(routes: map<Pid, RouteEntry>, owner: map<Pid, NodeId>, n: NodeId, m: Message, other: NodeId)
    requires OwnMessage(owner, n, m)
    ensures Local(RoutesAfter(routes, m), owner, n) == RoutesAfter(Local(routes, owner, n), m)
    ensures other != n ==> Local(RoutesAfter(routes, m), owner, other) == Local(routes, owner, other)
  {
  }

  lemma ExpectedAfter(endpoint: Endpoint, n: NodeId, held: map<Pid, Holding>, pid: Pid, newPid: Pid, epoch: nat,
                      cold: bool, seed: Bytes)
    requires pid in held && newPid !in held
    ensures RoutesAfter(Expected(endpoint, n, held), Ack(n, pid, newPid, epoch, cold, held[pid].chainId, seed))
         == Expected(endpoint, n, (held - {pid})[newPid := Holding(epoch, held[pid].chainId)])
  {
  }

  /** Putting a fresh PID into use disturbs no node's part. */
  lemma FreshPidKeeps(endpoint: Endpoint, routes: map<Pid, RouteEntry>, owner: map<Pid, NodeId>, n: NodeId,
                      queue: seq<Message>, held: map<Pid, Holding>, pid: Pid, m: NodeId)
    requires UpToDate(endpoint, routes, owner, n, queue, held)
    requires routes.Keys <= owner.Keys && pid !in owner
    ensures UpToDate(endpoint, routes, owner[pid := m], n, queue, held)
  {
    hide Flush, Expected;
    assert Local(routes, owner[pid := m], n) == Local(routes, owner, n);
  }

  lemma AcquireKeeps(endpoint: Endpoint, routes: map<Pid, RouteEntry>, owner: map<Pid, NodeId>, n: NodeId,
                     queue: seq<Message>, held: map<Pid, Holding>, pid: Pid, chain: ChainId, tip: Bytes)
    requires UpToDate(endpoint, routes, owner, n, queue, held)
    requires pid in owner && owner[pid] == n
    ensures UpToDate(endpoint, routes, owner, n, queue + [Announce(n, pid, endpoint, chain, tip)],
                     held[pid := Holding(0, chain)])
  {
    hide Flush, Local;
    FlushSnoc(Local(routes, owner, n), queue, Announce(n, pid, endpoint, chain, tip));
  }

  lemma MutateKeeps(endpoint: Endpoint, routes: map<Pid, RouteEntry>, owner: map<Pid, NodeId>, n: NodeId,
                    queue: seq<Message>, held: map<Pid, Holding>, pid: Pid, newPid: Pid, epoch: nat, cold: bool,
                    seed: Bytes)
    requires UpToDate(endpoint, routes, owner, n, queue, held)
    requires pid in held && newPid !in held && newPid in owner && owner[newPid] == n
    ensures UpToDate(endpoint, routes, owner, n,
                     queue + [Ack(n, pid, newPid, epoch, cold, held[pid].chainId, seed)],
                     (held - {pid})[newPid := Holding(epoch, held[pid].chainId)])
  {
    hide Flush, Local, Expected, RoutesAfter;
    FlushSnoc(Local(routes, owner, n), queue, Ack(n, pid, newPid, epoch, cold, held[pid].chainId, seed));
    ExpectedAfter(endpoint, n, held, pid, newPid, epoch, cold, seed);
  }

  /** Processing node m's next message keeps every node's part up to date. */
  lemma ProcessKeeps(endpoint: Endpoint, routes: map<Pid, RouteEntry>, owner: map<Pid, NodeId>, n: NodeId,
                     queue: seq<Message>, held: map<Pid, Holding>, m: NodeId, message: Message)
    requires UpToDate(endpoint, routes, owner, n, queue, held) && OwnMessage(owner, m, message)
    requires n == m ==> queue != [] && queue[0] == message
    ensures UpToDate(endpoint, RoutesAfter(routes, message), owner, n, if n == m then queue[1..] else queue, held)
  {
    hide Local, Expected, RoutesAfter;
    LocalAfter(routes, owner, m, message, n);
  }

  lemma OwnRoutes(endpoints: map<NodeId, Endpoint>, s: Net, n: NodeId)
    requires Inv(endpoints, s) && n in s.held && s.queues[n] != []
    ensures OwnMessage(s.owner, n, s.queues[n][0])
    ensures RoutesAfter(s.table.routes, s.queues[n][0]).Keys <= s.owner.Keys
  {
  }

  lemma NodeStaysUpToDate(sha: Hash, endpoints: map<NodeId, Endpoint>, s: Net, a: Action, n: NodeId)
    requires Inv(endpoints, s) && Enabled(s, a) && n in s.held
    ensures var s' := Next(sha, endpoints, s, a);
      UpToDate(endpoints[n], s'.table.routes, s'.owner, n, s'.queues[n], s'.held[n])
  {
    hide Local, RoutesAfter, Flush, Expected;
    var e, routes := endpoints[n], s.table.routes;
    match a
    case Acquire(m, pid, chain, tip) =>
      FreshPidKeeps(e, routes, s.owner, n, s.queues[n], s.held[n], pid, m);
      if n == m {
        AcquireKeeps(e, routes, s.owner[pid := m], n, s.queues[n], s.held[n], pid, chain, tip);
      }
    case Mutate(m, pid, newPid, cold, seed) =>
      FreshPidKeeps(e, routes, s.owner, n, s.queues[n], s.held[n], newPid, m);
      if n == m {
        MutateKeeps(e, routes, s.owner[newPid := m], n, s.queues[n], s.held[n], pid, newPid,
                    NextEpoch(s.held[n][pid].epoch), cold, seed);
      }
    case Process(m) =>
      OwnRoutes(endpoints, s, m);
      ProcessKeeps(e, routes, s.owner, n, s.queues[n], s.held[n], m, s.queues[m][0]);
  }

  lemma NextKeepsInv(sha: Hash, endpoints: map<NodeId, Endpoint>, s: Net, a: Action)
    requires Inv(endpoints, s) && Enabled(s, a)
    ensures Inv(endpoints, Next(sha, endpoints, s, a))
  {
    hide UpToDate, Local, RoutesAfter;
    var s' := Next(sha, endpoints, s, a);
    forall n | n in s'.held
      ensures UpToDate(endpoints[n], s'.table.routes, s'.owner, n, s'.queues[n], s'.held[n])
    {
      NodeStaysUpToDate(sha, endpoints, s, a, n);
    }
    if a.Process? {
      OwnRoutes(endpoints, s, a.n);
    }
  }

  ghost predicate IsRun(sha: Hash, endpoints: map<NodeId, Endpoint>, states: seq<Net>, actions: seq<Action>) {
    && |states| == |actions| + 1
    && states[0] == Net(map n | n in endpoints :: map[], map n | n in endpoints :: [], map[], Table(map[], map[], 0))
    && forall i :: 0 <= i < |actions| ==>
         actions[i].n in endpoints && Enabled(states[i], actions[i])
         && states[i + 1] == Next(sha, endpoints, states[i], actions[i])
  }

  lemma {:induction false} RunKeepsInv(sha: Hash, endpoints: map<NodeId, Endpoint>, states: seq<Net>,
                                       actions: seq<Action>, i: nat)
    requires IsRun(sha, endpoints, states, actions) && i < |states|
    ensures Inv(endpoints, states[i])
  {
    if i > 0 {
      RunKeepsInv(sha, endpoints, states, actions, i - 1);
      NextKeepsInv(sha, endpoints, states[i - 1], actions[i - 1]);
    } else {
      forall n | n in endpoints
        ensures UpToDate(endpoints[n], map[], map[], n, [], map[])
      {
        assert Local(map[], map[], n) == map[] == Expected(endpoints[n], n, map[]);
      }
    }
  }

  /** One node's part of the table, once it has nothing outstanding. */
  lemma NothingOutstanding(endpoints: map<NodeId, Endpoint>, s: Net, n: NodeId, pid: Pid)
    requires Inv(endpoints, s) && n in s.held && s.queues[n] == []
    ensures pid in s.held[n] ==>
      && pid in s.table.routes
      && s.table.routes[pid] == RouteEntry(pid, n, endpoints[n], s.held[n][pid].epoch, s.held[n][pid].chainId)
    ensures pid in s.table.routes && pid in s.owner && s.owner[pid] == n ==> pid in s.held[n]
  {
    assert UpToDate(endpoints[n], s.table.routes, s.owner, n, s.queues[n], s.held[n]);
    assert Local(s.table.routes, s.owner, n) == Expected(endpoints[n], n, s.held[n]);
    assert pid in s.held[n] ==> pid in Expected(endpoints[n], n, s.held[n]);
    assert pid in s.table.routes && pid in s.owner && s.owner[pid] == n ==> pid in Local(s.table.routes, s.owner, n);
  }

  lemma InvParts(endpoints: map<NodeId, Endpoint>, s: Net)
    requires Inv(endpoints, s)
    ensures s.held.Keys == s.queues.Keys == endpoints.Keys
    ensures forall pid :: pid in s.table.routes ==> pid in s.owner && s.owner[pid] in s.held
  {
    hide UpToDate;
  }

  /** Whenever no message is outstanding, the routes are exactly the fragments held: the right
      PIDs, at the right node, endpoint, epoch and chain. */
  lemma QuiescentRoutesAreHoldings(sha: Hash, endpoints: map<NodeId, Endpoint>, states: seq<Net>, actions: seq<Action>,
                                   i: nat, pid: Pid)
    requires IsRun(sha, endpoints, states, actions) && i < |states|
    requires forall n :: n in states[i].queues ==> states[i].queues[n] == []
    ensures pid in states[i].table.routes <==> exists n :: n in states[i].held && pid in states[i].held[n]
    ensures forall n :: n in states[i].held && pid in states[i].held[n] ==>
      n in endpoints && pid in states[i].table.routes && states[i].table.routes[pid]
        == RouteEntry(pid, n, endpoints[n], states[i].held[n][pid].epoch, states[i].held[n][pid].chainId)
  {
    hide IsRun, Inv;
    var s := states[i];
    RunKeepsInv(sha, endpoints, states, actions, i);
    InvParts(endpoints, s);
    if pid in s.table.routes {
      NothingOutstanding(endpoints, s, s.owner[pid], pid);
    }
    forall n | n in s.held && pid in s.held[n]
      ensures pid in s.table.routes
           && s.table.routes[pid] == RouteEntry(pid, n, endpoints[n], s.held[n][pid].epoch, s.held[n][pid].chainId)
    {
      NothingOutstanding(endpoints, s, n, pid);
    }
  }
}
