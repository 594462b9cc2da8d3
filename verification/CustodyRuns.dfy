/** The custody protocol over whole runs, from empty stores. */
module CustodyRuns {
  import opened Wrappers
  import opened Ids
  import opened Shamir
  import opened Store
  import opened Ratchet
  import opened Mutation
  import opened Custody
  import opened CustodySafety
  import opened Reconstruction
  import opened Refinement

  function Init(dir: Directory): World {
    World(map n | n in dir :: EMPTY_STORE, map[], map[], map[], map[], map[], {})
  }

  ghost predicate StepAt(p: Primitives, dir: Directory, states: seq<World>, actions: seq<Action>, i: nat)
    requires i < |actions| && |states| == |actions| + 1
  {
    Enabled(p, dir, states[i], actions[i]) && states[i + 1] == Next(p, dir, states[i], actions[i])
  }

  ghost predicate IsRun(p: Primitives, dir: Directory, states: seq<World>, actions: seq<Action>) {
    && (forall a, b :: a in dir && b in dir && dir[a] == dir[b] ==> a == b)
    && |states| == |actions| + 1 && states[0] == Init(dir)
    && forall i :: 0 <= i < |actions| ==> StepAt(p, dir, states, actions, i)
  }

  lemma InitInv(dir: Directory)
    requires forall a, b :: a in dir && b in dir && dir[a] == dir[b] ==> a == b
    ensures Inv(dir, Init(dir))
  {
  }

  /** A run goes on with any enabled step. */
  lemma RunSnoc(p: Primitives, dir: Directory, states: seq<World>, actions: seq<Action>, a: Action)
    requires IsRun(p, dir, states, actions) && Enabled(p, dir, states[|actions|], a)
    ensures IsRun(p, dir, states + [Next(p, dir, states[|actions|], a)], actions + [a])
  {
    hide Enabled, Next, Init;
    var states', actions' := states + [Next(p, dir, states[|actions|], a)], actions + [a];
    forall i | 0 <= i < |actions'|
      ensures StepAt(p, dir, states', actions', i)
    {
      if i < |actions| {
        assert StepAt(p, dir, states, actions, i);
      }
    }
  }

  /** The custody invariant holds in every reachable world. */
  lemma {:induction false} RunInv(p: Primitives, dir: Directory, states: seq<World>, actions: seq<Action>, i: nat)
    requires IsRun(p, dir, states, actions) && i < |states|
    ensures Inv(dir, states[i])
  {
    hide Inv, Enabled, Next, Init;
    if i == 0 {
      InitInv(dir);
    } else {
      RunInv(p, dir, states, actions, i - 1);
      assert StepAt(p, dir, states, actions, i - 1);
      NextKeepsInv(p, dir, states[i - 1], actions[i - 1]);
    }
  }

  lemma {:induction false} RunExtends(p: Primitives, dir: Directory, states: seq<World>, actions: seq<Action>, i: nat,
                                      j: nat)
    requires IsRun(p, dir, states, actions) && i <= j < |states|
    ensures Extends(states[i], states[j])
  {
    hide Enabled, Next, Init;
    if i < j {
      RunExtends(p, dir, states, actions, i, j - 1);
      assert StepAt(p, dir, states, actions, j - 1);
      NextExtends(p, dir, states[j - 1], actions[j - 1]);
    }
  }

  /** A share that was delivered once is held by its holder for the rest of the run, and whatever
      row the holder keeps for the group then opens to the share that was delivered. */
  lemma ShareNeverLost(p: Primitives, dir: Directory, states: seq<World>, actions: seq<Action>, i: nat, j: nat,
                       gid: GroupId, k: nat)
    requires IsRun(p, dir, states, actions) && i <= j < |states| && Slot(gid, k) in states[i].live
    ensures gid in states[i].groups && k < |states[i].groups[gid].holders|
    ensures states[i].groups[gid].holders[k] in states[j].stores
    ensures var rows := states[j].stores[states[i].groups[gid].holders[k]].fragments;
      && (exists pid :: pid in rows && rows[pid].groupId == gid)
      && (forall pid :: pid in rows && rows[pid].groupId == gid ==>
            rows[pid].Open() == Some(ShareOf(states[i].groups[gid], k)))
  {
    hide Inv, ShareOf, IsRun;
    RunInv(p, dir, states, actions, i);
    RunInv(p, dir, states, actions, j);
    RunExtends(p, dir, states, actions, i, j);
    DeliveredShareIsHeld(dir, states[i], gid, k);
    DeliveredShareIsHeld(dir, states[j], gid, k);
  }

  // --- The system as a map ---

  /** What the user commits before state i have last written under a name. */
  ghost function LastWritten(states: seq<World>, actions: seq<Action>, i: nat, n: NodeId, name: Name): Option<Bytes>
    requires i <= |actions| && |states| == |actions| + 1
  {
    if i == 0 then None
    else
      var w, a := states[i - 1], actions[i - 1];
      if IsUserCommit(w, a) && n == w.ops[a.id].owner && name == w.ops[a.id].name then Written(w, a)
      else LastWritten(states, actions, i - 1, n, name)
  }

  /** No user write commits while a reshare or a manifest rewrite with other bytes for the same
      name is pending. */
  ghost predicate Orderly(states: seq<World>, actions: seq<Action>)
    requires |states| == |actions| + 1
  {
    forall i :: 0 <= i < |actions| && IsUserCommit(states[i], actions[i]) ==> Quiet(states[i], actions[i])
  }

  lemma NothingYet(dir: Directory)
    ensures Agree(Init(dir)) && forall n, name :: Value(Init(dir), n, name) == None
  {
  }

  /** In an orderly run every node's names hold exactly what was last written under them. */
  lemma {:induction false} SystemIsMap(p: Primitives, dir: Directory, states: seq<World>, actions: seq<Action>, i: nat)
    requires IsRun(p, dir, states, actions) && Orderly(states, actions) && i < |states|
    ensures Agree(states[i])
    ensures forall n, name :: Value(states[i], n, name) == LastWritten(states, actions, i, n, name)
  {
    hide Inv, Enabled, Next, Quiet, Cargo;
    if i == 0 {
      NothingYet(dir);
    } else {
      hide Value;
      SystemIsMap(p, dir, states, actions, i - 1);
      RunInv(p, dir, states, actions, i - 1);
      assert StepAt(p, dir, states, actions, i - 1);
      var w, a := states[i - 1], actions[i - 1];
      if IsUserCommit(w, a) {
        UserCommitAgrees(p, dir, w, a);
      } else {
        StepAgree(p, dir, w, a);
      }
      forall n, name
        ensures Value(states[i], n, name) == LastWritten(states, actions, i, n, name)
      {
        StepValue(p, dir, w, a, n, name);
      }
    }
  }

  lemma InitOps(dir: Directory)
    ensures Init(dir).ops == map[]
  {
  }

  lemma CollectingBefore(p: Primitives, dir: Directory, w: World, a: Action, id: nat)
    requires Inv(dir, w) && Enabled(p, dir, w, a) && !(a.id == id && a.BeginCollecting?)
    requires id in Next(p, dir, w, a).ops && Next(p, dir, w, a).ops[id].Collecting?
    ensures id in w.ops && w.ops[id].Collecting?
    ensures var op, op' := w.ops[id], Next(p, dir, w, a).ops[id];
      op'.owner == op.owner && op'.manifest == op.manifest && op'.expected == op.expected && op'.reshare == op.reshare
  {
    hide Inv, SharingEnabled, CollectResult, CanAnswer, Answer, MembersFor, DeliveredRow, Mutated, Rotated,
      RotationUsable, Collected, Lists, RotateManifest, PutManifest, NewManifest;
    if id != a.id {
      OthersInherited(p, dir, w, a, id);
    }
  }

  /** Where a reconstruction in progress began. */
  lemma {:induction false} CollectionOrigin(p: Primitives, dir: Directory, states: seq<World>, actions: seq<Action>,
                                            i: nat, id: nat)
    returns (k: nat)
    requires IsRun(p, dir, states, actions) && i < |states| && id in states[i].ops && states[i].ops[id].Collecting?
    ensures var op := states[i].ops[id];
      && k < i && actions[k] == BeginCollecting(id, op.owner, op.manifest.secretName, op.reshare)
      && op.owner in states[k].stores && op.manifest.secretName in states[k].stores[op.owner].manifests
      && states[k].stores[op.owner].manifests[op.manifest.secretName] == op.manifest
      && Some(op.expected) == Value(states[k], op.owner, op.manifest.secretName)
  {
    hide Inv, Init;
    InitOps(dir);
    assert StepAt(p, dir, states, actions, i - 1);
    var w, a := states[i - 1], actions[i - 1];
    RunInv(p, dir, states, actions, i - 1);
    if a.id == id && a.BeginCollecting? {
      k := i - 1;
      ManifestGroups(dir, w);
    } else {
      CollectingBefore(p, dir, w, a, id);
      k := CollectionOrigin(p, dir, states, actions, i - 1, id);
    }
  }

  /** A reconstruction in an orderly run returns exactly the bytes that were last written under
      its name when it read the manifest - if at least `threshold` of the members it asked
      answered, whichever they were; and nothing otherwise. */
  lemma ReconstructionReturnsLastWritten(p: Primitives, dir: Directory, states: seq<World>, actions: seq<Action>,
                                         i: nat, id: nat)
    returns (k: nat)
    requires IsRun(p, dir, states, actions) && Orderly(states, actions) && i < |states|
    requires id in states[i].ops && states[i].ops[id].Collecting?
    requires Collected(states[i].ops[id].manifest, states[i].ops[id].fetched)
    ensures var op := states[i].ops[id];
      && k < i && actions[k] == BeginCollecting(id, op.owner, op.manifest.secretName, op.reshare)
      && LastWritten(states, actions, k, op.owner, op.manifest.secretName).Some?
      && CollectResult(op.manifest, op.fetched)
           == if |Answered(op.fetched)| >= op.manifest.threshold
              then Ok(LastWritten(states, actions, k, op.owner, op.manifest.secretName).value) else Err(None)
  {
    hide Inv, CollectResult, Collected, Value, StepAt, Init;
    k := CollectionOrigin(p, dir, states, actions, i, id);
    SystemIsMap(p, dir, states, actions, k);
    RunInv(p, dir, states, actions, i);
    TheOp(dir, states[i], id);
    CollectionReturnsSecret(dir, states[i], states[i].ops[id]);
  }
}
