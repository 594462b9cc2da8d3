/** The share custody protocol as a transition system over all nodes. Steps are single store
    statements and single message exchanges, interleaved in any order; any operation may stop for
    good between two of its steps. */
module Custody {
  import opened Wrappers
  import opened Ids
  import opened Shamir
  import opened Store
  import opened Ratchet
  import opened Mutation

  /** The place of one share: a group and an index into its holders. */
  datatype Slot = Slot(group: GroupId, index: nat)

  /** What was fixed when a secret was split: it never changes afterwards. */
  datatype Group = Group(token: string, secret: Bytes, threshold: int, rows: seq<Bytes>, holders: seq<NodeId>)

  /** An operation between two of its steps. */
  datatype Op =
    // sharing out a new group; the holders before `next` have their share
    | Sharing(owner: NodeId, name: Name, kind: string, group: GroupId, members: seq<Member>, next: nat, reshare: bool)
    // mutating: `row` was read, `target` is what replaces it, `stored` once it has been put
    | Mutating(node: NodeId, row: Fragment, target: Fragment, stored: bool)
    // reconstructing by a manifest that was read when the bytes under its name were `expected`
    | Collecting(owner: NodeId, manifest: Manifest, fetched: seq<Option<Bytes>>, expected: Bytes, reshare: bool)
    // folding a notice into the rows whose `lists` were read; `updates` is still to be written
    | Updating(node: NodeId, group: GroupId, updates: map<Pid, seq<Member>>, lists: map<Pid, seq<Member>>)
    // folding a notice into the manifest `source` that was read
    | WritingBack(node: NodeId, manifest: Manifest, source: Manifest)

  datatype World = World(
    stores: map<NodeId, StoreState>,
    groups: map<GroupId, Group>,
    slots: map<Pid, Slot>,      // every PID ever assigned, with the share it stands for
    depths: map<Pid, nat>,      // how many rotations lie behind a PID; none unless it is listed
    live: map<Slot, Pid>,       // per delivered share: a PID stored by its holder, none further on
    ops: map<nat, Op>,
    notices: set<Notice>)       // sent, and deliverable any number of times in any order

  type Directory = map<NodeId, Endpoint>

  /** The position of a PID in its share's history: the number of rotations behind it. */
  function Depth(w: World, pid: Pid): nat {
    if pid in w.depths then w.depths[pid] else 0
  }

  // --- Facts that stay true once they are true ---

  ghost predicate GroupOk(dir: Directory, g: Group) {
    && g.secret != [] && 2 <= g.threshold <= |g.holders| <= 255
    && ValidRows(g.rows, |g.secret|, g.threshold)
    && (forall i :: 0 <= i < |g.holders| ==> g.holders[i] in dir)
    && (forall i, j :: 0 <= i < j < |g.holders| ==> g.holders[i] != g.holders[j])
  }

  /** Share i of a group. */
  function ShareOf(g: Group, i: nat): Bytes {
    if |g.secret| <= |g.rows| && i < 255 then ShareAt(g.secret, g.rows, i) else []
  }

  /** The list names the group's holders in order, at their own endpoints, each by some PID of
      its own. */
  ghost predicate MembersOk(dir: Directory, w: World, gid: GroupId, ms: seq<Member>) {
    && gid in w.groups && |ms| == |w.groups[gid].holders|
    && forall i :: 0 <= i < |ms| ==>
         && ms[i].nodeId == w.groups[gid].holders[i]
         && ms[i].nodeId in dir && ms[i].endpoint == dir[ms[i].nodeId]
         && ms[i].pid in w.slots && w.slots[ms[i].pid] == Slot(gid, i)
  }

  /** A row of node n opens, under its own key and identity, to the share that was delivered. */
  ghost predicate RowOk(dir: Directory, w: World, n: NodeId, f: Fragment) {
    && f.pid in w.slots && w.slots[f.pid].group == f.groupId && w.slots[f.pid] in w.live
    && f.groupId in w.groups && w.slots[f.pid].index < |w.groups[f.groupId].holders|
    && w.groups[f.groupId].holders[w.slots[f.pid].index] == n
    && f.Open() == Some(ShareOf(w.groups[f.groupId], w.slots[f.pid].index))
    && f.groupToken == w.groups[f.groupId].token && f.threshold == w.groups[f.groupId].threshold
    && f.total == |w.groups[f.groupId].holders|
    && MembersOk(dir, w, f.groupId, f.members)
  }

  /** Every holder of the group has been given its share. */
  ghost predicate Complete(w: World, gid: GroupId) {
    gid in w.groups && forall i :: 0 <= i < |w.groups[gid].holders| ==> Slot(gid, i) in w.live
  }

  ghost predicate ManifestOk(dir: Directory, w: World, m: Manifest) {
    && Complete(w, m.groupId) && MembersOk(dir, w, m.groupId, m.members)
    && m.groupToken == w.groups[m.groupId].token && m.threshold == w.groups[m.groupId].threshold
    && m.total == |w.groups[m.groupId].holders| && m.kind != ""
  }

  /** A notice moves one slot's PID to another PID of the same slot, at the holder's endpoint. */
  ghost predicate NoticeOk(dir: Directory, w: World, nt: Notice) {
    && nt.oldPid in w.slots && nt.newPid in w.slots && w.slots[nt.oldPid] == w.slots[nt.newPid]
    && Depth(w, nt.newPid) == Depth(w, nt.oldPid) + 1
    && w.slots[nt.newPid].group == nt.groupId && nt.groupId in w.groups
    && w.slots[nt.newPid].index < |w.groups[nt.groupId].holders|
    && w.groups[nt.groupId].holders[w.slots[nt.newPid].index] in dir
    && nt.newEndpoint == dir[w.groups[nt.groupId].holders[w.slots[nt.newPid].index]]
  }

  /** What has been fetched so far are the shares of the members asked. */
  ghost predicate FetchedOk(g: Group, fetched: seq<Option<Bytes>>) {
    && |fetched| <= |g.holders|
    && forall i :: 0 <= i < |fetched| && fetched[i].Some? ==> fetched[i].value == ShareOf(g, i)
  }

  ghost predicate OpOk(dir: Directory, w: World, op: Op) {
    match op
    case Sharing(owner, _, kind, gid, ms, next, _) =>
      && owner in w.stores && kind != "" && MembersOk(dir, w, gid, ms) && next <= |ms|
      && forall i :: 0 <= i < next ==> Slot(gid, i) in w.live
    case Mutating(n, row, target, stored) =>
      && n in w.stores && RowOk(dir, w, n, row)
      && target.Open() == row.Open()
      && target == row.(pid := target.pid, key := target.key, epoch := target.epoch, ciphertext := target.ciphertext)
      && (stored ==> && target.pid in w.slots && w.slots[target.pid] == w.slots[row.pid]
                     && Depth(w, target.pid) == Depth(w, row.pid) + 1)
    case Collecting(owner, m, fetched, expected, _) =>
      && owner in w.stores && ManifestOk(dir, w, m)
      && FetchedOk(w.groups[m.groupId], fetched) && expected == w.groups[m.groupId].secret
    case Updating(n, gid, updates, lists) =>
      && n in w.stores
      && (forall p :: p in updates ==> p in lists && MembersOk(dir, w, gid, lists[p]))
      && forall p :: p in updates ==> p in w.slots && w.slots[p].group == gid && MembersOk(dir, w, gid, updates[p])
    case WritingBack(n, m, source) =>
      && n in w.stores && ManifestOk(dir, w, m)
      && source.groupId == m.groupId && MembersOk(dir, w, m.groupId, source.members)
  }

  /** The later world knows everything the earlier one knew. */
  ghost predicate Extends(w: World, w': World) {
    && w.stores.Keys == w'.stores.Keys
    && (forall g :: g in w.groups ==> g in w'.groups && w'.groups[g] == w.groups[g])
    && (forall p :: p in w.slots ==> p in w'.slots && w'.slots[p] == w.slots[p] && Depth(w', p) == Depth(w, p))
    && (forall s :: s in w.live ==> s in w'.live)
  }

  lemma MembersOkExtends(dir: Directory, w: World, w': World, gid: GroupId, ms: seq<Member>)
    requires Extends(w, w') && MembersOk(dir, w, gid, ms)
    ensures MembersOk(dir, w', gid, ms)
  {
  }

  lemma RowOkExtends(dir: Directory, w: World, w': World, n: NodeId, f: Fragment)
    requires Extends(w, w') && RowOk(dir, w, n, f)
    ensures RowOk(dir, w', n, f)
  {
    hide MembersOk, ShareOf;
    MembersOkExtends(dir, w, w', f.groupId, f.members);
  }

  lemma ManifestOkExtends(dir: Directory, w: World, w': World, m: Manifest)
    requires Extends(w, w') && ManifestOk(dir, w, m)
    ensures ManifestOk(dir, w', m) && w'.groups[m.groupId] == w.groups[m.groupId]
  {
    hide MembersOk;
    MembersOkExtends(dir, w, w', m.groupId, m.members);
  }

  lemma RowSlot(dir: Directory, w: World, n: NodeId, f: Fragment)
    requires RowOk(dir, w, n, f)
    ensures f.pid in w.slots && w.slots[f.pid] in w.live
  {
  }

  lemma OpOkExtends(dir: Directory, w: World, w': World, op: Op)
    requires Extends(w, w') && OpOk(dir, w, op)
    ensures OpOk(dir, w', op)
  {
    hide MembersOk, RowOk, ManifestOk, FetchedOk;
    match op
    case Sharing(_, _, _, gid, ms, _, _) => MembersOkExtends(dir, w, w', gid, ms);
    case Mutating(n, row, _, _) =>
      RowOkExtends(dir, w, w', n, row);
      RowSlot(dir, w, n, row);
    case Collecting(_, m, _, _, _) => ManifestOkExtends(dir, w, w', m);
    case Updating(_, gid, updates, lists) =>
      forall p | p in updates
        ensures MembersOk(dir, w', gid, updates[p]) && MembersOk(dir, w', gid, lists[p])
      {
        MembersOkExtends(dir, w, w', gid, updates[p]);
        MembersOkExtends(dir, w, w', gid, lists[p]);
      }
    case WritingBack(_, m, source) =>
      ManifestOkExtends(dir, w, w', m);
      MembersOkExtends(dir, w, w', m.groupId, source.members);
  }

  // --- The invariant ---

  ghost predicate RowsOk(dir: Directory, w: World) {
    forall n, p :: n in w.stores && p in w.stores[n].fragments ==>
      w.stores[n].fragments[p].pid == p && RowOk(dir, w, n, w.stores[n].fragments[p])
  }

  ghost predicate ManifestsOk(dir: Directory, w: World) {
    forall n, name :: n in w.stores && name in w.stores[n].manifests ==>
      w.stores[n].manifests[name].secretName == name && ManifestOk(dir, w, w.stores[n].manifests[name])
  }

  /** The row stored last for a delivered share is there. */
  ghost predicate SlotHeld(w: World, s: Slot) {
    && s in w.live && s.group in w.groups && s.index < |w.groups[s.group].holders|
    && w.live[s] in w.slots && w.slots[w.live[s]] == s
    && w.groups[s.group].holders[s.index] in w.stores
    && w.live[s] in w.stores[w.groups[s.group].holders[s.index]].fragments
  }

  ghost predicate SlotsHeld(w: World) {
    forall s {:trigger SlotHeld(w, s)} :: s in w.live ==> SlotHeld(w, s)
  }

  /** A mutation that has put its new row is about to delete one that is not the furthest. */
  ghost predicate Deletable(w: World, op: Op) {
    op.Mutating? && op.stored ==>
      && op.row.pid in w.slots && w.slots[op.row.pid] in w.live
      && Depth(w, op.row.pid) < Depth(w, w.live[w.slots[op.row.pid]])
  }

  ghost predicate OpsOk(dir: Directory, w: World) {
    forall id :: id in w.ops ==> OpOk(dir, w, w.ops[id]) && Deletable(w, w.ops[id])
  }

  ghost predicate Inv(dir: Directory, w: World) {
    && w.stores.Keys == dir.Keys
    && (forall a, b :: a in dir && b in dir && dir[a] == dir[b] ==> a == b)
    && (forall g :: g in w.groups ==> GroupOk(dir, w.groups[g]))
    && RowsOk(dir, w) && ManifestsOk(dir, w) && SlotsHeld(w) && OpsOk(dir, w)
    && (forall nt :: nt in w.notices ==> NoticeOk(dir, w, nt))
  }

  // --- Steps ---

  datatype Outcome = Delivered | Failed | ReplyLost

  datatype Action =
    | BeginSharing(id: nat, owner: NodeId, name: Name, kind: string, gid: GroupId, g: Group, pids: seq<Pid>)
    | BeginResharing(id: nat, kind: string, gid: GroupId, g: Group, pids: seq<Pid>)
    | Deliver(id: nat, key: Bytes, nonce: Bytes, chainId: ChainId, outcome: Outcome)
    | Commit(id: nat)
    | BeginMutation(id: nat, n: NodeId, pid: Pid, d: Drive)
    | PutNewRow(id: nat)
    | DeleteOldRow(id: nat)
    | ReadRows(id: nat, n: NodeId, nt: Notice)
    | WriteRow(id: nat, pid: Pid)
    | ReadManifest(id: nat, n: NodeId, name: Name, nt: Notice)
    | WriteManifest(id: nat)
    | BeginCollecting(id: nat, owner: NodeId, name: Name, reshare: bool)
    | Fetch(id: nat, answer: Option<Pid>)
    | Stop(id: nat)      // an operation ends: it is done, it failed, or its node went away

  function MembersFor(dir: Directory, holders: seq<NodeId>, pids: seq<Pid>): (ms: seq<Member>)
    requires |holders| == |pids| && forall i :: 0 <= i < |holders| ==> holders[i] in dir
    ensures |ms| == |holders|
  {
    seq(|holders|, i requires 0 <= i < |holders| => Member(pids[i], holders[i], dir[holders[i]]))
  }

  /** The PIDs are new, and no two of them are equal. */
  ghost predicate NewPids(w: World, pids: seq<Pid>) {
    && (forall i :: 0 <= i < |pids| ==> pids[i] !in w.slots)
    && (forall i, j :: 0 <= i < j < |pids| ==> pids[i] != pids[j])
  }

  /** The shares fetched so far. */
  function Shares(fetched: seq<Option<Bytes>>): seq<Bytes> {
    if fetched == [] then []
    else
      var before := Shares(fetched[..|fetched| - 1]);
      if fetched[|fetched| - 1].Some? then before + [fetched[|fetched| - 1].value] else before
  }

  /** The member loop is over: enough shares, or nobody left to ask. */
  predicate Collected(m: Manifest, fetched: seq<Option<Bytes>>) {
    |Shares(fetched)| >= m.threshold || |fetched| >= |m.members|
  }

  /** What a reconstruction returns; None when there were too few shares. */
  ghost function CollectResult(m: Manifest, fetched: seq<Option<Bytes>>): Result<Bytes, Option<Error>> {
    if |Shares(fetched)| < m.threshold then Err(None)
    else match Combined(Shares(fetched))
      case Ok(secret) => Ok(secret)
      case Err(e) => Err(Some(e))
  }

  ghost predicate SharingEnabled(dir: Directory, w: World, kind: string, gid: GroupId, g: Group, pids: seq<Pid>) {
    && kind != "" && gid !in w.groups && GroupOk(dir, g) && |pids| == |g.holders| && NewPids(w, pids)
  }

  /** A rotated PID is new, or repeats a rotation: the same share already had it at that depth. */
  ghost predicate RotationUsable(w: World, row: Fragment, newPid: Pid) {
    newPid in w.slots ==>
      row.pid in w.slots && w.slots[newPid] == w.slots[row.pid] && Depth(w, newPid) == Depth(w, row.pid) + 1
  }

  ghost predicate AnswersFrom(dir: Directory, w: World, op: Op, m: Member, n: NodeId, pid: Pid)
    requires op.Collecting? && n in w.stores && n in dir
  {
    && (if m.nodeId == op.owner then n == op.owner else dir[n] == m.endpoint)
    && pid in w.stores[n].fragments && w.stores[n].fragments[pid].groupId == op.manifest.groupId
    && (m.nodeId != op.owner ==> w.stores[n].fragments[pid].groupToken == op.manifest.groupToken)
    && w.stores[n].fragments[pid].Open().Some?
  }

  /** The node behind the next member answers from the row `pid`, one of its rows for the group.
      The owner looks in its own store; anyone else is reached by endpoint and checks the token. */
  ghost predicate CanAnswer(dir: Directory, w: World, op: Op, pid: Pid)
    requires op.Collecting? && |op.fetched| < |op.manifest.members|
  {
    var m := op.manifest.members[|op.fetched|];
    exists n :: n in w.stores && n in dir && AnswersFrom(dir, w, op, m, n, pid)
  }

  ghost predicate Enabled(p: Primitives, dir: Directory, w: World, a: Action) {
    match a
    case BeginSharing(id, owner, name, kind, gid, g, pids) =>
      id !in w.ops && owner in w.stores && SharingEnabled(dir, w, kind, gid, g, pids)
    case BeginResharing(id, kind, gid, g, pids) =>
      && id in w.ops && w.ops[id].Collecting? && w.ops[id].reshare
      && Collected(w.ops[id].manifest, w.ops[id].fetched)
      && CollectResult(w.ops[id].manifest, w.ops[id].fetched) == Ok(g.secret)
      && SharingEnabled(dir, w, kind, gid, g, pids)
    case Deliver(id, _, _, _, _) =>
      && id in w.ops && w.ops[id].Sharing? && w.ops[id].next < |w.ops[id].members|
      && w.ops[id].group in w.groups && w.ops[id].members[w.ops[id].next].nodeId in w.stores
    case Commit(id) =>
      && id in w.ops && w.ops[id].Sharing? && w.ops[id].next == |w.ops[id].members|
      && w.ops[id].group in w.groups && w.ops[id].owner in w.stores
    case BeginMutation(id, n, pid, d) =>
      && id !in w.ops && n in w.stores && pid in w.stores[n].fragments
      && Mutated(p, w.stores[n].fragments[pid], d).Some?
    case PutNewRow(id) =>
      && id in w.ops && w.ops[id].Mutating? && !w.ops[id].stored
      && w.ops[id].node in w.stores && w.ops[id].row.pid in w.slots
      && RotationUsable(w, w.ops[id].row, w.ops[id].target.pid)
    case DeleteOldRow(id) =>
      && id in w.ops && w.ops[id].Mutating? && w.ops[id].stored
      && w.ops[id].node in w.stores && w.ops[id].node in dir
    case ReadRows(id, n, nt) => id !in w.ops && n in w.stores && nt in w.notices
    case WriteRow(id, pid) =>
      id in w.ops && w.ops[id].Updating? && pid in w.ops[id].updates && w.ops[id].node in w.stores
    case ReadManifest(id, n, name, nt) =>
      && id !in w.ops && n in w.stores && nt in w.notices
      && name in w.stores[n].manifests && w.stores[n].manifests[name].groupId == nt.groupId
    case WriteManifest(id) => id in w.ops && w.ops[id].WritingBack? && w.ops[id].node in w.stores
    case BeginCollecting(id, owner, name, _) =>
      && id !in w.ops && owner in w.stores && name in w.stores[owner].manifests
      && w.stores[owner].manifests[name].groupId in w.groups
    case Fetch(id, answer) =>
      && id in w.ops && w.ops[id].Collecting? && !Collected(w.ops[id].manifest, w.ops[id].fetched)
      && (answer.Some? ==> CanAnswer(dir, w, w.ops[id], answer.value))
    case Stop(id) => id in w.ops
  }

  ghost function Answer(dir: Directory, w: World, op: Op, pid: Pid): Bytes
    requires op.Collecting? && |op.fetched| < |op.manifest.members| && CanAnswer(dir, w, op, pid)
  {
    var m := op.manifest.members[|op.fetched|];
    var n :| n in w.stores && n in dir && AnswersFrom(dir, w, op, m, n, pid);
    w.stores[n].fragments[pid].Open().value
  }

  ghost function Started(dir: Directory, w: World, id: nat, owner: NodeId, name: Name, kind: string, gid: GroupId,
                         g: Group, pids: seq<Pid>, reshare: bool): World
    requires SharingEnabled(dir, w, kind, gid, g, pids)
  {
    w.(groups := w.groups[gid := g],
       slots := w.slots + (map i | 0 <= i < |pids| :: pids[i] := Slot(gid, i)),
       ops := w.ops[id := Sharing(owner, name, kind, gid, MembersFor(dir, g.holders, pids), 0, reshare)])
  }

  /** The row that a holder stores on delivery. */
  function DeliveredRow(g: Group, op: Op, key: Bytes, nonce: Bytes, chainId: ChainId): Fragment
    requires op.Sharing? && op.next < |op.members|
  {
    var pid := op.members[op.next].pid;
    Fragment(pid, op.group, g.token, chainId, 0, g.threshold, |g.holders|, key,
             Encrypt(key, ShareOf(g, op.next), Aad(op.group, pid), nonce), op.members)
  }

  function WithStore(w: World, n: NodeId, s: StoreState): World {
    w.(stores := w.stores[n := s])
  }

  function Without(w: World, id: nat): World {
    w.(ops := w.ops - {id})
  }

  function Redeemed(w: World, s: Slot, pid: Pid): World {
    if s in w.live then w else w.(live := w.live[s := pid])
  }

  /** The member list mentions the pseudonym. */
  predicate Lists(ms: seq<Member>, pid: Pid) {
    exists i :: 0 <= i < |ms| && ms[i].pid == pid
  }

  ghost function DeliverStep(w: World, id: nat, op: Op, f: Fragment, replyLost: bool): World
    requires op.Sharing? && op.next < |op.members| && op.members[op.next].nodeId in w.stores
  {
    var n := op.members[op.next].nodeId;
    var w1 := WithStore(Redeemed(w, Slot(op.group, op.next), f.pid), n, PutFragment(w.stores[n], f));
    if replyLost then Without(w1, id) else w1.(ops := w1.ops[id := op.(next := op.next + 1)])
  }

  ghost function PutStep(w: World, id: nat, op: Op): World
    requires op.Mutating? && op.node in w.stores && op.row.pid in w.slots
  {
    var s, depth := w.slots[op.row.pid], Depth(w, op.row.pid) + 1;
    var w1 := w.(slots := w.slots[op.target.pid := s], depths := w.depths[op.target.pid := depth],
                 live := if s in w.live && depth <= Depth(w, w.live[s]) then w.live else w.live[s := op.target.pid],
                 ops := w.ops[id := op.(stored := true)]);
    WithStore(w1, op.node, PutFragment(w.stores[op.node], op.target))
  }

  ghost function DeleteStep(dir: Directory, w: World, id: nat, op: Op): World
    requires op.Mutating? && op.node in w.stores && op.node in dir
  {
    var nt := Notice(op.row.groupId, op.row.groupToken, op.row.pid, op.target.pid, dir[op.node], op.target.epoch);
    Without(WithStore(w.(notices := w.notices + {nt}), op.node, DeleteFragment(w.stores[op.node], op.row.pid)), id)
  }

  ghost function WriteRowStep(w: World, id: nat, op: Op, pid: Pid): World
    requires op.Updating? && op.node in w.stores && pid in op.updates
  {
    var s := w.stores[op.node];
    var w1 := w.(ops := w.ops[id := op.(updates := op.updates - {pid})]);
    if pid !in s.fragments then w1
    else WithStore(w1, op.node, s.(fragments := s.fragments[pid := s.fragments[pid].(members := op.updates[pid])]))
  }

  /** The manifest that a completed sharing commits. */
  function NewManifest(g: Group, op: Op): Manifest
    requires op.Sharing?
  {
    Manifest(op.name, op.kind, op.group, g.token, g.threshold, |g.holders|, op.members)
  }

  ghost function Next(p: Primitives, dir: Directory, w: World, a: Action): World
    requires Enabled(p, dir, w, a)
  {
    match a
    case BeginSharing(id, owner, name, kind, gid, g, pids) =>
      Started(dir, w, id, owner, name, kind, gid, g, pids, false)
    case BeginResharing(id, kind, gid, g, pids) =>
      Started(dir, w, id, w.ops[id].owner, w.ops[id].manifest.secretName, kind, gid, g, pids, true)
    case Deliver(id, key, nonce, chainId, outcome) =>
      if outcome.Failed? then Without(w, id)
      else
        var op := w.ops[id];
        DeliverStep(w, id, op, DeliveredRow(w.groups[op.group], op, key, nonce, chainId), outcome.ReplyLost?)
    case Commit(id) =>
      var op := w.ops[id];
      Without(WithStore(w, op.owner, PutManifest(w.stores[op.owner], NewManifest(w.groups[op.group], op))), id)
    case BeginMutation(id, n, pid, d) =>
      var f := w.stores[n].fragments[pid];
      w.(ops := w.ops[id := Mutating(n, f, Mutated(p, f, d).value, false)])
    case PutNewRow(id) => PutStep(w, id, w.ops[id])
    case DeleteOldRow(id) => DeleteStep(dir, w, id, w.ops[id])
    case ReadRows(id, n, nt) =>
      var fs := w.stores[n].fragments;
      w.(ops := w.ops[id := Updating(n, nt.groupId,
        (map q | q in fs && fs[q].groupId == nt.groupId && Lists(fs[q].members, nt.oldPid)
           :: Rotated(fs[q].members, nt.oldPid, nt.newPid, nt.newEndpoint)),
        map q | q in fs :: fs[q].members)])
    case WriteRow(id, pid) => WriteRowStep(w, id, w.ops[id], pid)
    case ReadManifest(id, n, name, nt) =>
      var m := w.stores[n].manifests[name];
      w.(ops := w.ops[id := WritingBack(n, RotateManifest(m, nt.oldPid, nt.newPid, nt.newEndpoint), m)])
    case WriteManifest(id) =>
      var op := w.ops[id];
      Without(WithStore(w, op.node, PutManifest(w.stores[op.node], op.manifest)), id)
    case BeginCollecting(id, owner, name, reshare) =>
      var m := w.stores[owner].manifests[name];
      w.(ops := w.ops[id := Collecting(owner, m, [], w.groups[m.groupId].secret, reshare)])
    case Fetch(id, answer) =>
      var op := w.ops[id];
      var got := if answer.None? then None else Some(Answer(dir, w, op, answer.value));
      w.(ops := w.ops[id := op.(fetched := op.fetched + [got])])
    case Stop(id) => Without(w, id)
  }
}
