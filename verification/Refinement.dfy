/** The whole system as a plain map from (node, secret name) to bytes: user writes change it at
    their commit, everything else leaves it alone. */
module Refinement {
  import opened Wrappers
  import opened Ids
  import opened Shamir
  import opened Store
  import opened Ratchet
  import opened Mutation
  import opened Custody
  import opened CustodySafety
  import opened Reconstruction

  /** The bytes that node n has stored under a name. */
  ghost function Value(w: World, n: NodeId, name: Name): Option<Bytes> {
    if n in w.stores && name in w.stores[n].manifests && w.stores[n].manifests[name].groupId in w.groups
    then Some(w.groups[w.stores[n].manifests[name].groupId].secret) else None
  }

  /** The collection can still get enough shares: so many have come, so many are left to ask. */
  predicate Hopeful(m: Manifest, fetched: seq<Option<Bytes>>) {
    |Shares(fetched)| + |m.members| - |fetched| >= m.threshold
  }

  /** The name that a pending reshare or manifest rewrite will write to, without being a user write. */
  function Target(op: Op): Option<(NodeId, Name)> {
    match op
    case Sharing(owner, name, _, _, _, _, true) => Some((owner, name))
    case Collecting(owner, m, fetched, _, true) => if Hopeful(m, fetched) then Some((owner, m.secretName)) else None
    case WritingBack(n, m, _) => Some((n, m.secretName))
    case _ => None
  }

  /** The bytes that it carries. */
  ghost function Cargo(w: World, op: Op): Option<Bytes>
    requires Target(op).Some?
  {
    var gid := if op.Sharing? then op.group else op.manifest.groupId;
    if gid in w.groups then Some(w.groups[gid].secret) else None
  }

  /** Every pending reshare and manifest rewrite carries the bytes now stored under its name. */
  ghost predicate Agree(w: World) {
    forall id :: id in w.ops && Target(w.ops[id]).Some? ==>
      Cargo(w, w.ops[id]) == Value(w, Target(w.ops[id]).value.0, Target(w.ops[id]).value.1)
  }

  ghost predicate IsUserCommit(w: World, a: Action) {
    a.Commit? && a.id in w.ops && w.ops[a.id].Sharing? && !w.ops[a.id].reshare
  }

  /** What the step's user commit, if it is one, writes. */
  ghost function Written(w: World, a: Action): Option<Bytes>
    requires IsUserCommit(w, a)
  {
    var gid := w.ops[a.id].group;
    if gid in w.groups then Some(w.groups[gid].secret) else None
  }

  /** Nothing pending carries other bytes for the name the step writes. */
  ghost predicate Quiet(w: World, a: Action)
    requires IsUserCommit(w, a)
  {
    forall id :: id in w.ops && id != a.id && Target(w.ops[id]) == Some((w.ops[a.id].owner, w.ops[a.id].name)) ==>
      Cargo(w, w.ops[id]) == Written(w, a)
  }

  // --- Single steps ---

  /** Steps that write no manifest keep every name's bytes. */
  lemma SameManifestsSameValue(w: World, w': World)
    requires Extends(w, w')
    requires forall n :: n in w.stores ==> w'.stores[n].manifests == w.stores[n].manifests
    requires forall n, name :: n in w.stores && name in w.stores[n].manifests ==>
      w.stores[n].manifests[name].groupId in w.groups
    ensures forall n, name :: Value(w', n, name) == Value(w, n, name)
  {
  }

  lemma ManifestGroup(dir: Directory, w: World, m: Manifest)
    requires ManifestOk(dir, w, m)
    ensures m.groupId in w.groups && m.kind != ""
  {
  }

  lemma ManifestGroups(dir: Directory, w: World)
    requires Inv(dir, w)
    ensures forall n, name :: n in w.stores && name in w.stores[n].manifests ==>
      w.stores[n].manifests[name].groupId in w.groups && w.stores[n].manifests[name].secretName == name
  {
    hide ManifestOk;
    forall n, name | n in w.stores && name in w.stores[n].manifests
      ensures w.stores[n].manifests[name].groupId in w.groups && w.stores[n].manifests[name].secretName == name
    {
      TheManifest(dir, w, n, name);
      ManifestGroup(dir, w, w.stores[n].manifests[name]);
    }
  }

  lemma MembersGroup(dir: Directory, w: World, gid: GroupId, ms: seq<Member>)
    requires MembersOk(dir, w, gid, ms)
    ensures gid in w.groups
  {
  }

  /** Every pending operation refers to a known group. */
  lemma CargoKnown(dir: Directory, w: World, id: nat)
    requires Inv(dir, w) && id in w.ops && Target(w.ops[id]).Some?
    ensures Cargo(w, w.ops[id]).Some?
  {
    hide Inv, ManifestOk, MembersOk;
    TheOp(dir, w, id);
    match w.ops[id]
    case Sharing(_, _, _, gid, ms, _, _) => MembersGroup(dir, w, gid, ms);
    case Collecting(_, m, _, _, _) => ManifestGroup(dir, w, m);
    case WritingBack(_, m, _) => ManifestGroup(dir, w, m);
    case _ =>
  }

  /** The step writes a manifest. */
  predicate WritesManifest(a: Action) {
    a.Commit? || a.WriteManifest?
  }

  ghost predicate SameManifests(w: World, w': World) {
    w'.stores.Keys == w.stores.Keys && forall n :: n in w.stores ==> w'.stores[n].manifests == w.stores[n].manifests
  }

  /** The step writes fragment rows. */
  predicate WritesRows(a: Action) {
    a.Deliver? || a.PutNewRow? || a.DeleteOldRow? || a.WriteRow?
  }

  /** What a step leaves alone: everything known stays known, and manifests stay as they are. */
  ghost predicate Frame(w: World, w': World) {
    Extends(w, w') && SameManifests(w, w')
  }

  lemma DeliverStepFrame(w: World, id: nat, op: Op, f: Fragment, replyLost: bool)
    requires op.Sharing? && op.next < |op.members| && op.members[op.next].nodeId in w.stores
    ensures Frame(w, DeliverStep(w, id, op, f, replyLost))
  {
    hide DeliverStep, Redeemed;
    DeliverStepIs(w, id, op, f, replyLost);
    RedeemedExtends(w, Slot(op.group, op.next), f.pid);
  }

  lemma PutStepFrame(w: World, id: nat)
    requires id in w.ops && w.ops[id].Mutating? && w.ops[id].row.pid in w.slots
    requires w.ops[id].node in w.stores && RotationUsable(w, w.ops[id].row, w.ops[id].target.pid)
    ensures Frame(w, PutStep(w, id, w.ops[id]))
  {
    hide RotationUsable;
    PutStepExtends(w, id);
  }

  lemma DeleteStepFrame(dir: Directory, w: World, id: nat, op: Op)
    requires op.Mutating? && op.node in w.stores && op.node in dir
    ensures Frame(w, DeleteStep(dir, w, id, op))
  {
  }

  lemma RowsFrame(w: World, w': World, n: NodeId, s: StoreState)
    requires n in w.stores && s.manifests == w.stores[n].manifests && w'.stores == w.stores[n := s]
    requires w'.groups == w.groups && w'.slots == w.slots && w'.depths == w.depths && w'.live == w.live
    ensures Frame(w, w')
  {
  }

  lemma WriteRowStepFrame(w: World, id: nat, op: Op, pid: Pid)
    requires op.Updating? && op.node in w.stores && pid in op.updates
    ensures Frame(w, WriteRowStep(w, id, op, pid))
  {
    hide Frame;
    var s, rows := w.stores[op.node], w.stores[op.node].fragments;
    RowsFrame(w, WriteRowStep(w, id, op, pid), op.node,
              if pid !in rows then s else s.(fragments := rows[pid := rows[pid].(members := op.updates[pid])]));
  }

  lemma WithoutFrame(w: World, id: nat)
    ensures Frame(w, Without(w, id))
  {
  }

  lemma RowStepsFrame(p: Primitives, dir: Directory, w: World, a: Action)
    requires Enabled(p, dir, w, a) && WritesRows(a)
    ensures Frame(w, Next(p, dir, w, a))
  {
    hide Frame, DeliveredRow, DeliverStep, PutStep, DeleteStep, WriteRowStep, RotationUsable;
    match a {
      case Deliver(id, key, nonce, chainId, outcome) =>
        if outcome.Failed? {
          WithoutFrame(w, id);
        } else {
          var op := w.ops[id];
          DeliverStepFrame(w, id, op, DeliveredRow(w.groups[op.group], op, key, nonce, chainId), outcome.ReplyLost?);
        }
      case PutNewRow(id) => PutStepFrame(w, id);
      case DeleteOldRow(id) => DeleteStepFrame(dir, w, id, w.ops[id]);
      case WriteRow(id, pid) => WriteRowStepFrame(w, id, w.ops[id], pid);
      case _ =>
    }
  }

  lemma OtherStepsKeepManifests(p: Primitives, dir: Directory, w: World, a: Action)
    requires Enabled(p, dir, w, a) && !WritesManifest(a)
    ensures SameManifests(w, Next(p, dir, w, a))
  {
    hide SharingEnabled, CollectResult, CanAnswer, Answer, RotationUsable, MembersFor, DeliveredRow, Mutated, Rotated,
      DeliverStep, PutStep, DeleteStep, WriteRowStep, Collected, Lists, RotateManifest, PutManifest, NewManifest,
      SharingEnabled, Started;
    if WritesRows(a) {
      RowStepsFrame(p, dir, w, a);
    }
    match a {
      case BeginSharing(id, owner, name, kind, gid, g, pids) =>
        StartedShape(dir, w, id, owner, name, kind, gid, g, pids, false);
      case BeginResharing(id, kind, gid, g, pids) =>
        StartedShape(dir, w, id, w.ops[id].owner, w.ops[id].manifest.secretName, kind, gid, g, pids, true);
      case _ =>
    }
  }

  /** Every step extends what is known. */
  lemma BeginExtends(p: Primitives, dir: Directory, w: World, a: Action)
    requires Enabled(p, dir, w, a) && (a.BeginSharing? || a.BeginResharing?)
    ensures Extends(w, Next(p, dir, w, a))
  {
    hide SharingEnabled, Started, Extends, CollectResult, Value;
    match a
    case BeginSharing(id, owner, name, kind, gid, g, pids) =>
      StartedShape(dir, w, id, owner, name, kind, gid, g, pids, false);
    case BeginResharing(id, kind, gid, g, pids) =>
      StartedShape(dir, w, id, w.ops[id].owner, w.ops[id].manifest.secretName, kind, gid, g, pids, true);
    case _ =>
  }

  lemma OtherExtends(p: Primitives, dir: Directory, w: World, a: Action)
    requires Enabled(p, dir, w, a) && !WritesRows(a) && !a.BeginSharing? && !a.BeginResharing?
    ensures Extends(w, Next(p, dir, w, a))
  {
    hide SharingEnabled, Started, CollectResult, CanAnswer, Answer, MembersFor, Mutated, Rotated, GroupOk,
      RotationUsable, Collected, Lists, RotateManifest, PutManifest, NewManifest, DeliverStep, PutStep, DeleteStep,
      WriteRowStep, DeliveredRow, Value;
  }

  lemma NextExtends(p: Primitives, dir: Directory, w: World, a: Action)
    requires Enabled(p, dir, w, a)
    ensures Extends(w, Next(p, dir, w, a))
  {
    hide Enabled, Next, Extends, SameManifests;
    if WritesRows(a) {
      RowStepsFrame(p, dir, w, a);
    } else if a.BeginSharing? || a.BeginResharing? {
      BeginExtends(p, dir, w, a);
    } else {
      OtherExtends(p, dir, w, a);
    }
  }

  // --- Which operations are pending after a step ---

  /** An operation with a target after a step was pending before with the same target and cargo,
      or was begun by the step with the bytes then stored. */
  ghost predicate Inherited(w: World, w': World, id: nat) {
    id in w'.ops && Target(w'.ops[id]).Some? ==>
      || (id in w.ops && Target(w.ops[id]) == Target(w'.ops[id]) && Cargo(w', w'.ops[id]) == Cargo(w, w.ops[id]))
      || Cargo(w', w'.ops[id]) == Value(w, Target(w'.ops[id]).value.0, Target(w'.ops[id]).value.1)
  }

  lemma SameCargo(dir: Directory, w: World, w': World, id: nat)
    requires Inv(dir, w) && Extends(w, w') && id in w.ops && Target(w.ops[id]).Some?
    ensures Cargo(w', w.ops[id]) == Cargo(w, w.ops[id])
  {
    hide Inv;
    CargoKnown(dir, w, id);
  }

  /** The moving operation after a step that writes a row and does not end it. */
  ghost function MovedOp(a: Action, op: Op): Op {
    if a.Deliver? && op.Sharing? then op.(next := op.next + 1)
    else if a.PutNewRow? && op.Mutating? then op.(stored := true)
    else if a.WriteRow? && op.Updating? then op.(updates := op.updates - {a.pid})
    else op
  }

  lemma DeliverStepOps(w: World, id: nat, op: Op, f: Fragment, replyLost: bool)
    requires op.Sharing? && op.next < |op.members| && op.members[op.next].nodeId in w.stores
    ensures DeliverStep(w, id, op, f, replyLost).ops
      == if replyLost then w.ops - {id} else w.ops[id := op.(next := op.next + 1)]
  {
    hide PutFragment;
  }

  lemma PutStepOps(w: World, id: nat, op: Op)
    requires op.Mutating? && op.node in w.stores && op.row.pid in w.slots
    ensures PutStep(w, id, op).ops == w.ops[id := op.(stored := true)]
  {
    hide PutFragment;
  }

  lemma DeleteStepOps(dir: Directory, w: World, id: nat, op: Op)
    requires op.Mutating? && op.node in w.stores && op.node in dir
    ensures DeleteStep(dir, w, id, op).ops == w.ops - {id}
  {
    hide DeleteFragment;
  }

  lemma WriteRowStepOps(w: World, id: nat, op: Op, pid: Pid)
    requires op.Updating? && op.node in w.stores && pid in op.updates
    ensures WriteRowStep(w, id, op, pid).ops == w.ops[id := op.(updates := op.updates - {pid})]
  {
  }

  /** What the steps that write rows do to the pending operations. */
  lemma RowStepsOps(p: Primitives, dir: Directory, w: World, a: Action)
    requires Enabled(p, dir, w, a) && WritesRows(a)
    ensures Next(p, dir, w, a).ops == w.ops - {a.id}
      || (a.id in w.ops && Next(p, dir, w, a).ops == w.ops[a.id := MovedOp(a, w.ops[a.id])])
  {
    hide SharingEnabled, CollectResult, CanAnswer, Answer, MembersFor, DeliveredRow, Mutated, Rotated, GroupOk,
      RotationUsable, Collected, Lists, RotateManifest, PutManifest, PutFragment, DeleteFragment, NewManifest,
      DeliverStep, PutStep, DeleteStep, WriteRowStep;
    match a {
      case Deliver(id, key, nonce, chainId, outcome) =>
        if !outcome.Failed? {
          DeliverStepOps(w, id, w.ops[id], DeliveredRow(w.groups[w.ops[id].group], w.ops[id], key, nonce, chainId),
                         outcome.ReplyLost?);
        }
      case PutNewRow(id) => PutStepOps(w, id, w.ops[id]);
      case DeleteOldRow(id) => DeleteStepOps(dir, w, id, w.ops[id]);
      case WriteRow(id, pid) => WriteRowStepOps(w, id, w.ops[id], pid);
      case _ =>
    }
  }

  lemma OtherOpsStay(p: Primitives, dir: Directory, w: World, a: Action, id: nat)
    requires Enabled(p, dir, w, a) && id != a.id
    ensures id in Next(p, dir, w, a).ops ==> id in w.ops && Next(p, dir, w, a).ops[id] == w.ops[id]
  {
    hide SharingEnabled, CollectResult, CanAnswer, Answer, MembersFor, DeliveredRow, Mutated, Rotated, GroupOk,
      RotationUsable, Collected, Lists, RotateManifest, PutManifest, NewManifest, DeliverStep, PutStep, DeleteStep,
      WriteRowStep;
    if WritesRows(a) {
      RowStepsOps(p, dir, w, a);
    }
  }

  /** The operations other than the one that moves. */
  lemma OthersInherited(p: Primitives, dir: Directory, w: World, a: Action, id: nat)
    requires Inv(dir, w) && Enabled(p, dir, w, a) && id != a.id
    ensures Inherited(w, Next(p, dir, w, a), id)
    ensures id in Next(p, dir, w, a).ops ==> id in w.ops && Next(p, dir, w, a).ops[id] == w.ops[id]
  {
    hide Inv, Enabled, Next, Extends, Value, Cargo;
    OtherOpsStay(p, dir, w, a, id);
    NextExtends(p, dir, w, a);
    if id in w.ops && Target(w.ops[id]).Some? {
      SameCargo(dir, w, Next(p, dir, w, a), id);
    }
  }

  lemma EnoughIsHopeful(dir: Directory, w: World, op: Op)
    requires op.Collecting? && OpOk(dir, w, op) && CollectResult(op.manifest, op.fetched).Ok?
    ensures Hopeful(op.manifest, op.fetched)
  {
    hide Combined, ShareOf, Shares;
  }

  lemma ReshareInherited(p: Primitives, dir: Directory, w: World, a: Action)
    requires Inv(dir, w) && Enabled(p, dir, w, a) && a.BeginResharing?
    ensures Inherited(w, Next(p, dir, w, a), a.id)
  {
    hide Inv, MembersFor, GroupOk, NewPids, Collected, CollectResult, MembersOk, Combined, Hopeful;
    TheOp(dir, w, a.id);
    CollectionReturnsSecret(dir, w, w.ops[a.id]);
    ManifestGroup(dir, w, w.ops[a.id].manifest);
    EnoughIsHopeful(dir, w, w.ops[a.id]);
  }

  lemma ReadManifestInherited(p: Primitives, dir: Directory, w: World, a: Action)
    requires Inv(dir, w) && Enabled(p, dir, w, a) && a.ReadManifest?
    ensures Inherited(w, Next(p, dir, w, a), a.id)
  {
    hide Inv, Rotated;
    ManifestGroups(dir, w);
  }

  lemma BeginCollectingInherited(p: Primitives, dir: Directory, w: World, a: Action)
    requires Inv(dir, w) && Enabled(p, dir, w, a) && a.BeginCollecting?
    ensures Inherited(w, Next(p, dir, w, a), a.id)
  {
    hide Inv;
    ManifestGroups(dir, w);
  }

  /** A collection that is hopeful after an answer was hopeful before it. */
  lemma FetchIsHopeful(op: Op, op': Op)
    requires op.Collecting? && op'.Collecting? && op'.manifest == op.manifest && |op'.fetched| == |op.fetched| + 1
    requires op'.fetched[..|op.fetched|] == op.fetched
    ensures Hopeful(op'.manifest, op'.fetched) ==> Hopeful(op.manifest, op.fetched)
  {
  }

  /** The steps in the middle of an operation do not change what it carries, or where to. */
  lemma MovedAlong(p: Primitives, dir: Directory, w: World, a: Action)
    requires Enabled(p, dir, w, a) && !a.BeginResharing? && !a.ReadManifest? && !a.BeginCollecting?
    requires a.id in Next(p, dir, w, a).ops && Target(Next(p, dir, w, a).ops[a.id]).Some?
    ensures var w' := Next(p, dir, w, a);
      && a.id in w.ops && Target(w.ops[a.id]) == Target(w'.ops[a.id])
      && Cargo(w', w'.ops[a.id]) == Cargo(w', w.ops[a.id])
  {
    hide SharingEnabled, CollectResult, CanAnswer, Answer, MembersFor, DeliveredRow, Mutated, Rotated, GroupOk,
      RotationUsable, Lists, RotateManifest, PutManifest, NewManifest, DeliverStep, PutStep, DeleteStep, WriteRowStep,
      Value;
    if WritesRows(a) {
      RowStepsOps(p, dir, w, a);
    } else if a.Fetch? {
      FetchIsHopeful(w.ops[a.id], Next(p, dir, w, a).ops[a.id]);
    }
  }

  lemma MovedInherited(p: Primitives, dir: Directory, w: World, a: Action)
    requires Inv(dir, w) && Enabled(p, dir, w, a)
    ensures Inherited(w, Next(p, dir, w, a), a.id)
  {
    hide Inv, Enabled, Next, Extends, Value, Cargo, Target;
    match a {
      case BeginResharing(_, _, _, _, _) => ReshareInherited(p, dir, w, a);
      case ReadManifest(_, _, _, _) => ReadManifestInherited(p, dir, w, a);
      case BeginCollecting(_, _, _, _) => BeginCollectingInherited(p, dir, w, a);
      case _ =>
        var w' := Next(p, dir, w, a);
        if a.id in w'.ops && Target(w'.ops[a.id]).Some? {
          MovedAlong(p, dir, w, a);
          NextExtends(p, dir, w, a);
          SameCargo(dir, w, w', a.id);
        }
    }
  }

  /** Storing a manifest sets its own name to its group's secret. */
  lemma StoredValue(w: World, n: NodeId, m: Manifest, id: nat, k: NodeId, name: Name)
    requires n in w.stores && m.groupId in w.groups
    ensures Value(Without(WithStore(w, n, PutManifest(w.stores[n], m)), id), k, name)
         == if k == n && name == m.secretName then Some(w.groups[m.groupId].secret) else Value(w, k, name)
  {
  }

  /** The step's effect on the stored bytes. */
  ghost function ValueAfter(w: World, a: Action, n: NodeId, name: Name): Option<Bytes> {
    if IsUserCommit(w, a) && n == w.ops[a.id].owner && name == w.ops[a.id].name then Written(w, a)
    else Value(w, n, name)
  }

  lemma WriteStepValue(p: Primitives, dir: Directory, w: World, a: Action, n: NodeId, name: Name)
    requires Inv(dir, w) && Enabled(p, dir, w, a) && Agree(w) && WritesManifest(a)
    ensures Value(Next(p, dir, w, a), n, name) == ValueAfter(w, a, n, name)
  {
    hide Inv, Value, MembersOk, ManifestOk;
    TheOp(dir, w, a.id);
    var op := w.ops[a.id];
    if a.Commit? {
      MembersGroup(dir, w, op.group, op.members);
      StoredValue(w, op.owner, NewManifest(w.groups[op.group], op), a.id, n, name);
    } else {
      ManifestGroup(dir, w, op.manifest);
      StoredValue(w, op.node, op.manifest, a.id, n, name);
    }
  }

  /** A user commit sets its name to its bytes; no other step changes the bytes under any name. */
  lemma StepValue(p: Primitives, dir: Directory, w: World, a: Action, n: NodeId, name: Name)
    requires Inv(dir, w) && Enabled(p, dir, w, a) && Agree(w)
    ensures Value(Next(p, dir, w, a), n, name) == ValueAfter(w, a, n, name)
  {
    hide Inv, Enabled, Next, Extends, Value, Agree;
    if WritesManifest(a) {
      WriteStepValue(p, dir, w, a, n, name);
    } else {
      NextExtends(p, dir, w, a);
      OtherStepsKeepManifests(p, dir, w, a);
      ManifestGroups(dir, w);
      SameManifestsSameValue(w, Next(p, dir, w, a));
    }
  }

  /** Every step but a user commit keeps the pending operations in agreement. */
  lemma StepAgree(p: Primitives, dir: Directory, w: World, a: Action)
    requires Inv(dir, w) && Enabled(p, dir, w, a) && Agree(w) && !IsUserCommit(w, a)
    ensures Agree(Next(p, dir, w, a))
  {
    hide Inv, Enabled, Next, Extends, Value, Cargo;
    var w' := Next(p, dir, w, a);
    forall id | id in w'.ops && Target(w'.ops[id]).Some?
      ensures Cargo(w', w'.ops[id]) == Value(w', Target(w'.ops[id]).value.0, Target(w'.ops[id]).value.1)
    {
      var t := Target(w'.ops[id]).value;
      StepValue(p, dir, w, a, t.0, t.1);
      if id == a.id {
        MovedInherited(p, dir, w, a);
      } else {
        OthersInherited(p, dir, w, a, id);
      }
    }
  }

  lemma CommittedNameWritten(dir: Directory, w: World, a: Action)
    requires Inv(dir, w) && IsUserCommit(w, a)
    ensures Written(w, a).Some?
  {
    hide Inv, MembersOk;
    TheOp(dir, w, a.id);
    MembersGroup(dir, w, w.ops[a.id].group, w.ops[a.id].members);
  }

  /** After a user commit, the pending operations agree with the new bytes if and only if none of
      them carries other bytes for the name just written. */
  lemma UserCommitAgrees(p: Primitives, dir: Directory, w: World, a: Action)
    requires Inv(dir, w) && Enabled(p, dir, w, a) && Agree(w) && IsUserCommit(w, a)
    ensures Agree(Next(p, dir, w, a)) <==> Quiet(w, a)
  {
    hide Inv, Extends, Value, Cargo, PutManifest, NewManifest;
    var w' := Next(p, dir, w, a);
    assert w'.ops == w.ops - {a.id};
    forall id | id in w'.ops && Target(w'.ops[id]).Some?
      ensures Cargo(w', w'.ops[id]) == Cargo(w, w.ops[id])
      ensures Value(w', Target(w.ops[id]).value.0, Target(w.ops[id]).value.1)
           == ValueAfter(w, a, Target(w.ops[id]).value.0, Target(w.ops[id]).value.1)
    {
      NextExtends(p, dir, w, a);
      SameCargo(dir, w, w', id);
      StepValue(p, dir, w, a, Target(w.ops[id]).value.0, Target(w.ops[id]).value.1);
    }
    CommittedNameWritten(dir, w, a);
  }
}
