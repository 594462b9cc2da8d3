/** When a renewed manifest keeps its group, and with it the rest that healing brought. */
module Rest {
  import opened Ids
  import opened Store
  import opened Ratchet
  import opened Mutation
  import opened Custody
  import opened CustodySafety
  import opened Refinement
  import opened CustodyRuns
  import opened Positions
  import opened RunBuilding
  import opened Healing

  /** The step stores, under the node's name, a manifest over another group. */
  ghost predicate StoresOther(w: World, a: Action, n: NodeId, name: Name, gid: GroupId) {
    a.id in w.ops &&
    var op := w.ops[a.id];
    || (a.Commit? && op.Sharing? && op.owner == n && op.name == name && op.group != gid)
    || (a.WriteManifest? && op.WritingBack? && op.node == n
        && op.manifest.secretName == name && op.manifest.groupId != gid)
  }

  lemma GroupAfterStep(p: Primitives, dir: Directory, w: World, a: Action, n: NodeId, name: Name, gid: GroupId)
    requires Enabled(p, dir, w, a) && NamedIn(w, gid, n, name)
    ensures NamedIn(Next(p, dir, w, a), gid, n, name) <==> !StoresOther(w, a, n, name, gid)
  {
    hide SharingEnabled, CollectResult, Collected, CanAnswer, Answer, MembersFor, DeliveredRow, Mutated, Rotated,
      GroupOk, RotationUsable, PutFragment, DeleteFragment, RotateManifest, Custody.Lists, DeliverStep, PutStep,
      DeleteStep, WriteRowStep, Extends;
    if WritesRows(a) {
      RowStepsFrame(p, dir, w, a);
    }
  }

  ghost predicate AimsElsewhere(op: Op, n: NodeId, name: Name, gid: GroupId) {
    || (op.Sharing? && op.owner == n && op.name == name && op.group != gid)
    || (op.WritingBack? && op.node == n && op.manifest.secretName == name && op.manifest.groupId != gid)
  }

  /** Nothing pending is going to store a manifest over another group under the name. */
  ghost predicate NothingOtherPending(w: World, n: NodeId, name: Name, gid: GroupId) {
    forall id :: id in w.ops ==> !AimsElsewhere(w.ops[id], n, name, gid)
  }

  /** A user's write or a reshare of the name starts to share out. */
  ghost predicate StartsSharing(w: World, a: Action, n: NodeId, name: Name) {
    || (a.BeginSharing? && a.owner == n && a.name == name)
    || (a.BeginResharing? && a.id in w.ops && w.ops[a.id].Collecting? && w.ops[a.id].owner == n
        && w.ops[a.id].manifest.secretName == name)
  }

  lemma MovedAims(p: Primitives, dir: Directory, w: World, a: Action, n: NodeId, name: Name, gid: GroupId)
    requires Inv(dir, w) && Enabled(p, dir, w, a) && NamedIn(w, gid, n, name) && !StartsSharing(w, a, n, name)
    requires a.id in Next(p, dir, w, a).ops && (a.id in w.ops ==> !AimsElsewhere(w.ops[a.id], n, name, gid))
    ensures !AimsElsewhere(Next(p, dir, w, a).ops[a.id], n, name, gid)
  {
    hide Inv, SharingEnabled, CollectResult, Collected, CanAnswer, Answer, MembersFor, DeliveredRow, Mutated, Rotated,
      GroupOk, RotationUsable, PutManifest, PutFragment, DeleteFragment, NewManifest, Custody.Lists, DeliverStep,
      PutStep, DeleteStep, WriteRowStep;
    if WritesRows(a) {
      RowStepsOps(p, dir, w, a);
    } else if a.ReadManifest? {
      TheManifest(dir, w, a.n, a.name);
    }
  }

  lemma StoringAims(w: World, a: Action, n: NodeId, name: Name, gid: GroupId)
    ensures StoresOther(w, a, n, name, gid) ==> a.id in w.ops && AimsElsewhere(w.ops[a.id], n, name, gid)
  {
  }

  /** Then no step but the start of a sharing changes that, or the group. */
  lemma NothingOtherStays(p: Primitives, dir: Directory, w: World, a: Action, n: NodeId, name: Name, gid: GroupId)
    requires Inv(dir, w) && Enabled(p, dir, w, a) && NamedIn(w, gid, n, name)
    requires NothingOtherPending(w, n, name, gid) && !StartsSharing(w, a, n, name)
    ensures NamedIn(Next(p, dir, w, a), gid, n, name) && NothingOtherPending(Next(p, dir, w, a), n, name, gid)
  {
    hide Inv, Enabled, Next, NamedIn, AimsElsewhere, StartsSharing;
    var w' := Next(p, dir, w, a);
    assert !StoresOther(w, a, n, name, gid) by { StoringAims(w, a, n, name, gid); }
    GroupAfterStep(p, dir, w, a, n, name, gid);
    forall id | id in w'.ops
      ensures !AimsElsewhere(w'.ops[id], n, name, gid)
    {
      if id == a.id {
        MovedAims(p, dir, w, a, n, name, gid);
      } else {
        OtherOpsStay(p, dir, w, a, id);
      }
    }
  }

  lemma {:induction false} GroupStays(p: Primitives, dir: Directory, states: seq<World>, actions: seq<Action>, i: nat,
                                      j: nat, n: NodeId, name: Name, gid: GroupId)
    requires IsRun(p, dir, states, actions) && i <= j < |states| && NamedIn(states[i], gid, n, name)
    requires NothingOtherPending(states[i], n, name, gid)
    requires forall k :: i <= k < j ==> !StartsSharing(states[k], actions[k], n, name)
    ensures NamedIn(states[j], gid, n, name) && NothingOtherPending(states[j], n, name, gid)
    decreases j
  {
    hide Inv, Enabled, Next, Init, NamedIn, NothingOtherPending, StartsSharing;
    if i < j {
      GroupStays(p, dir, states, actions, i, j - 1, n, name, gid);
      RunInv(p, dir, states, actions, j - 1);
      assert StepAt(p, dir, states, actions, j - 1);
      NothingOtherStays(p, dir, states[j - 1], actions[j - 1], n, name, gid);
    }
  }

  /** Healing comes to rest: when all members of a manifest are up, no pending operation aims at the
      name with another group and no sharing of the name starts, then the manifest stays over its
      group and is never urgent while those endpoints stay up - whatever mutations, notices and
      other operations come in between, and whatever the margin. */
  lemma RenewedStaysAtRest(p: Primitives, dir: Directory, states: seq<World>, actions: seq<Action>, i: nat, j: nat,
                           n: NodeId, name: Name, gid: GroupId, up: set<Endpoint>, margin: int)
    requires IsRun(p, dir, states, actions) && i <= j < |states| && NamedIn(states[i], gid, n, name)
    requires AllUp(states[i].stores[n].manifests[name], up) && NothingOtherPending(states[i], n, name, gid)
    requires forall k :: i <= k < j ==> !StartsSharing(states[k], actions[k], n, name)
    ensures NamedIn(states[j], gid, n, name) && !Urgent(states[j].stores[n].manifests[name], up, margin)
  {
    hide IsRun, NothingOtherPending, StartsSharing, Urgent, AllUp;
    GroupStays(p, dir, states, actions, i, j, n, name, gid);
    HealingComesToRest(p, dir, states, actions, i, j, n, name, up, margin);
  }

  // --- Exactly when the group, and the rest, will last ---

  /** r' goes on where r ends, and no sharing of the name starts on the way. */
  ghost predicate Unshared(r: Run, r': Run, n: NodeId, name: Name) {
    && |r.states| == |r.actions| + 1 && |r'.states| == |r'.actions| + 1
    && r.states <= r'.states && r.actions <= r'.actions
    && forall i :: |r.actions| <= i < |r'.actions| ==> !StartsSharing(r'.states[i], r'.actions[i], n, name)
  }

  /** The name's manifest is over the group now and will be, whatever happens next, until the name
      is shared out anew. */
  ghost predicate GroupForever(p: Primitives, dir: Directory, r: Run, n: NodeId, name: Name, gid: GroupId) {
    forall r' :: ValidRun(p, dir, r') && Unshared(r, r', n, name) ==> NamedIn(Last(r'), gid, n, name)
  }

  lemma GroupLasts(p: Primitives, dir: Directory, r: Run, r': Run, n: NodeId, name: Name, gid: GroupId)
    requires ValidRun(p, dir, r) && NamedIn(Last(r), gid, n, name) && NothingOtherPending(Last(r), n, name, gid)
    requires ValidRun(p, dir, r') && Unshared(r, r', n, name)
    ensures NamedIn(Last(r'), gid, n, name)
  {
    hide IsRun, NamedIn, NothingOtherPending, StartsSharing;
    GroupStays(p, dir, r'.states, r'.actions, |r.actions|, |r'.actions|, n, name, gid);
  }

  lemma StoredUnderItsGroup(w: World, w': World, op: Op)
    requires op.Sharing? && Finished(w, w', op)
    ensures NamedIn(w', op.group, op.owner, op.name)
  {
    hide Dealt;
  }

  lemma WritesItsGroup(p: Primitives, dir: Directory, w: World, id: nat)
    requires id in w.ops && w.ops[id].WritingBack? && w.ops[id].node in w.stores
    ensures Enabled(p, dir, w, WriteManifest(id))
    ensures var op := w.ops[id];
      NamedIn(Next(p, dir, w, WriteManifest(id)), op.manifest.groupId, op.node, op.manifest.secretName)
  {
  }

  lemma KnownNode(dir: Directory, w: World, id: nat)
    requires Inv(dir, w) && id in w.ops && w.ops[id].WritingBack?
    ensures w.ops[id].node in w.stores
  {
    hide Inv;
    TheOp(dir, w, id);
  }

  /** An operation that aims at the name with another group can bring that group there. */
  lemma AimReached(p: Primitives, dir: Directory, r: Run, id: nat, n: NodeId, name: Name, gid: GroupId)
    returns (r': Run)
    requires ValidRun(p, dir, r) && id in Last(r).ops && AimsElsewhere(Last(r).ops[id], n, name, gid)
    ensures ValidRun(p, dir, r') && Unshared(r, r', n, name) && !NamedIn(Last(r'), gid, n, name)
  {
    hide IsRun, Inv, Enabled, Next, Finished, NoPuts, IsUserCommit, Onward, Value;
    var op := Last(r).ops[id];
    if op.Sharing? {
      r' := FinishSharing(p, dir, r, id);
      StoredUnderItsGroup(Last(r), Last(r'), op);
    } else {
      LastInv(p, dir, r);
      WritesBack(p, dir, Last(r), id);
      KnownNode(dir, Last(r), id);
      WritesItsGroup(p, dir, Last(r), id);
      OneStep(p, dir, r, WriteManifest(id));
      r' := Then(p, dir, r, WriteManifest(id));
    }
  }

  /** A manifest keeps its group however the run goes on, until the name is shared out anew, if and
      only if no pending sharing or notice handler aims at the name with another group - which can
      be read off the pending operations. */
  lemma GroupForeverIff(p: Primitives, dir: Directory, r: Run, n: NodeId, name: Name, gid: GroupId)
    requires ValidRun(p, dir, r) && NamedIn(Last(r), gid, n, name)
    ensures GroupForever(p, dir, r, n, name, gid) <==> NothingOtherPending(Last(r), n, name, gid)
  {
    hide IsRun, NamedIn, Unshared, AimsElsewhere;
    if GroupForever(p, dir, r, n, name, gid) {
      forall id | id in Last(r).ops
        ensures !AimsElsewhere(Last(r).ops[id], n, name, gid)
      {
        if AimsElsewhere(Last(r).ops[id], n, name, gid) {
          var r' := AimReached(p, dir, r, id, n, name, gid);
          assert false;
        }
      }
    }
    if NothingOtherPending(Last(r), n, name, gid) {
      forall r' | ValidRun(p, dir, r') && Unshared(r, r', n, name)
        ensures NamedIn(Last(r'), gid, n, name)
      {
        GroupLasts(p, dir, r, r', n, name, gid);
      }
    }
  }

  /** And is never urgent on the way. */
  ghost predicate RestsForever(p: Primitives, dir: Directory, r: Run, n: NodeId, name: Name, gid: GroupId,
                               up: set<Endpoint>, margin: int)
  {
    forall r' :: ValidRun(p, dir, r') && Unshared(r, r', n, name) ==>
      NamedIn(Last(r'), gid, n, name) && !Urgent(Last(r').stores[n].manifests[name], up, margin)
  }

  lemma RestLasts(p: Primitives, dir: Directory, r: Run, r': Run, n: NodeId, name: Name, gid: GroupId,
                  up: set<Endpoint>, margin: int)
    requires ValidRun(p, dir, r) && NamedIn(Last(r), gid, n, name) && NothingOtherPending(Last(r), n, name, gid)
    requires AllUp(Last(r).stores[n].manifests[name], up)
    requires ValidRun(p, dir, r') && Unshared(r, r', n, name)
    ensures NamedIn(Last(r'), gid, n, name) && !Urgent(Last(r').stores[n].manifests[name], up, margin)
  {
    hide IsRun, NothingOtherPending, StartsSharing, Urgent, AllUp;
    RenewedStaysAtRest(p, dir, r'.states, r'.actions, |r.actions|, |r'.actions|, n, name, gid, up, margin);
  }

  /** Healing comes to rest, exactly: while the members of a manifest stay up it keeps its group and
      is never urgent, in every continuation in which the name is not shared out anew, if and only
      if nothing pending aims at the name with another group. */
  lemma RestsForeverIff(p: Primitives, dir: Directory, r: Run, n: NodeId, name: Name, gid: GroupId,
                        up: set<Endpoint>, margin: int)
    requires ValidRun(p, dir, r) && NamedIn(Last(r), gid, n, name) && AllUp(Last(r).stores[n].manifests[name], up)
    ensures RestsForever(p, dir, r, n, name, gid, up, margin) <==> NothingOtherPending(Last(r), n, name, gid)
  {
    hide IsRun, Unshared, NothingOtherPending, Urgent, AllUp;
    GroupForeverIff(p, dir, r, n, name, gid);
    if NothingOtherPending(Last(r), n, name, gid) {
      forall r' | ValidRun(p, dir, r') && Unshared(r, r', n, name)
        ensures NamedIn(Last(r'), gid, n, name) && !Urgent(Last(r').stores[n].manifests[name], up, margin)
      {
        RestLasts(p, dir, r, r', n, name, gid, up, margin);
      }
    }
  }
}
