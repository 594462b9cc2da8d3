/** Continuing runs: any pending operation can be brought to its end from any reachable state. */
module RunBuilding {
  import opened Wrappers
  import opened Ids
  import opened Gf256
  import opened Shamir
  import opened Store
  import opened Ratchet
  import opened Custody
  import opened CustodySafety
  import opened Reconstruction
  import opened Refinement
  import opened CustodyRuns
  import opened ClientSteps
  import opened Mutation
  import opened Positions

  datatype Run = Run(states: seq<World>, actions: seq<Action>)

  ghost predicate ValidRun(p: Primitives, dir: Directory, r: Run) {
    |r.states| == |r.actions| + 1 && IsRun(p, dir, r.states, r.actions)
  }

  ghost function Last(r: Run): World
    requires |r.states| == |r.actions| + 1
  {
    r.states[|r.actions|]
  }

  /** r' goes on where r ends, and no user write commits on the way. */
  ghost predicate Onward(r: Run, r': Run) {
    && |r.states| == |r.actions| + 1 && |r'.states| == |r'.actions| + 1
    && r.states <= r'.states && r.actions <= r'.actions
    && forall i :: |r.actions| <= i < |r'.actions| ==> !IsUserCommit(r'.states[i], r'.actions[i])
  }

  /** No mutation puts a row on the way. */
  ghost predicate NoPuts(r: Run, r': Run) {
    forall i :: |r.actions| <= i < |r'.actions| ==> !r'.actions[i].PutNewRow?
  }

  /** No sharing starts on the way. */
  ghost predicate NoStarts(r: Run, r': Run) {
    forall i :: |r.actions| <= i < |r'.actions| ==> !r'.actions[i].BeginSharing? && !r'.actions[i].BeginResharing?
  }

  lemma OnwardTrans(r: Run, r1: Run, r2: Run)
    requires Onward(r, r1) && Onward(r1, r2)
    ensures Onward(r, r2)
  {
    hide IsUserCommit;
    forall i | |r.actions| <= i < |r2.actions|
      ensures !IsUserCommit(r2.states[i], r2.actions[i])
    {
      if i < |r1.actions| {
        assert r2.states[i] == r1.states[i] && r2.actions[i] == r1.actions[i];
      }
    }
  }

  /** The run with one more step. */
  ghost function Then(p: Primitives, dir: Directory, r: Run, a: Action): Run
    requires |r.states| == |r.actions| + 1 && Enabled(p, dir, Last(r), a)
  {
    Run(r.states + [Next(p, dir, Last(r), a)], r.actions + [a])
  }

  lemma OneStep(p: Primitives, dir: Directory, r: Run, a: Action)
    requires ValidRun(p, dir, r) && Enabled(p, dir, Last(r), a)
    ensures ValidRun(p, dir, Then(p, dir, r, a)) && Last(Then(p, dir, r, a)) == Next(p, dir, Last(r), a)
    ensures !IsUserCommit(Last(r), a) ==> Onward(r, Then(p, dir, r, a))
  {
    hide IsRun, Enabled, Next, IsUserCommit;
    RunSnoc(p, dir, r.states, r.actions, a);
  }

  lemma LastInv(p: Primitives, dir: Directory, r: Run)
    requires ValidRun(p, dir, r)
    ensures Inv(dir, Last(r))
  {
    hide IsRun, Inv;
    RunInv(p, dir, r.states, r.actions, |r.actions|);
  }

  // --- Fresh text ---

  function Text(n: nat): string {
    seq(n, _ => 'x')
  }

  lemma LongerThanAll(used: set<string>) returns (n: nat)
    ensures forall s :: s in used ==> |s| < n
  {
    n := 0;
    if used != {} {
      var s :| s in used;
      n := LongerThanAll(used - {s});
      if n <= |s| {
        n := |s| + 1;
      }
      assert forall t :: t in used ==> t == s || t in used - {s};
    }
  }

  /** n different PIDs, every other length free between them. */
  function SpacedPids(from: nat, n: nat): (pids: seq<Pid>)
    ensures |pids| == n
  {
    seq(n, i requires 0 <= i < n => Text(from + 2 * i))
  }

  lemma SpacedPidsAreNew(w: World, from: nat, n: nat)
    requires forall s :: s in w.slots.Keys ==> |s| < from
    ensures NewPids(w, SpacedPids(from, n))
  {
    forall i | 0 <= i < n
      ensures SpacedPids(from, n)[i] !in w.slots
    {
      assert |SpacedPids(from, n)[i]| == from + 2 * i;
    }
    forall i, j | 0 <= i < j < n
      ensures SpacedPids(from, n)[i] != SpacedPids(from, n)[j]
    {
      assert |SpacedPids(from, n)[i]| != |SpacedPids(from, n)[j]|;
    }
  }

  // --- Finishing a sharing ---

  /** Member i has the row that its delivery stored. */
  ghost predicate Holds(w: World, op: Op, i: nat) {
    && op.Sharing? && i < |op.members| && op.group in w.groups && op.members[i].nodeId in w.stores
    && op.members[i].pid in w.stores[op.members[i].nodeId].fragments
    && w.stores[op.members[i].nodeId].fragments[op.members[i].pid]
         == DeliveredRow(w.groups[op.group], op.(next := i), [ONE], [], "")
  }

  /** The deliveries of the members from `from` on have been made, and nothing else has changed. */
  ghost predicate Dealt(w: World, w': World, op: Op, from: nat) {
    && op.Sharing? && w'.groups == w.groups && w'.slots == w.slots && w'.depths == w.depths && w'.notices == w.notices
    && (forall i :: from <= i < |op.members| ==> Holds(w', op, i))
    && (forall i :: 0 <= i < from && Holds(w, op, i) ==> Holds(w', op, i))
  }

  lemma HoldsByIndex(w: World, op: Op, i: nat)
    requires op.Sharing?
    ensures Holds(w, op.(next := op.next + 1), i) == Holds(w, op, i)
  {
    assert op.(next := op.next + 1).(next := i) == op.(next := i);
  }

  lemma DealtOn(w: World, w1: World, w2: World, op: Op)
    requires op.Sharing? && op.next < |op.members|
    requires Dealt(w1, w2, op.(next := op.next + 1), op.next + 1) && Holds(w1, op, op.next)
    requires w1.groups == w.groups && w1.slots == w.slots && w1.depths == w.depths && w1.notices == w.notices
    requires forall i :: 0 <= i < op.next && Holds(w, op, i) ==> Holds(w1, op, i)
    ensures Dealt(w, w2, op, op.next)
  {
    hide Holds;
    forall i, v: World
      ensures Holds(v, op.(next := op.next + 1), i) == Holds(v, op, i)
    {
      HoldsByIndex(v, op, i);
    }
  }

  lemma NothingYetDone(r: Run)
    requires |r.states| == |r.actions| + 1
    ensures Onward(r, r) && Frame(Last(r), Last(r))
  {
  }

  lemma SharingBounds(dir: Directory, w: World, id: nat)
    requires Inv(dir, w) && id in w.ops && w.ops[id].Sharing?
    ensures w.ops[id].next <= |w.ops[id].members| && w.ops[id].group in w.groups && w.ops[id].owner in w.stores
  {
    hide Inv;
    TheOp(dir, w, id);
  }

  lemma RowFacts(g: Group, op: Op)
    requires op.Sharing? && op.next < |op.members|
    ensures var f := DeliveredRow(g, op, [ONE], [], "");
      f.key == [ONE] && f.ciphertext.nonce == [] && f.chainId == "" && f.pid == op.members[op.next].pid
  {
  }

  lemma HoldsAfter(dir: Directory, w: World, id: nat, f: Fragment)
    requires Inv(dir, w) && id in w.ops && w.ops[id].Sharing? && w.ops[id].next < |w.ops[id].members|
    requires w.ops[id].group in w.groups && w.ops[id].members[w.ops[id].next].nodeId in w.stores
    requires f == DeliveredRow(w.groups[w.ops[id].group], w.ops[id], [ONE], [], "")
    ensures var op, w' := w.ops[id], DeliverStep(w, id, w.ops[id], f, false);
      && Holds(w', op, op.next) && forall i :: 0 <= i < op.next && Holds(w, op, i) ==> Holds(w', op, i)
  {
    hide Inv, ShareOf;
    TheOp(dir, w, id);
    var op := w.ops[id];
    assert op.(next := op.next) == op;
  }

  lemma DeliverKnows(p: Primitives, dir: Directory, w: World, id: nat)
    requires Inv(dir, w) && id in w.ops && w.ops[id].Sharing?
    requires Enabled(p, dir, w, Deliver(id, [ONE], [], "", Delivered))
    ensures !IsUserCommit(w, Deliver(id, [ONE], [], "", Delivered))
    ensures var w', op := Next(p, dir, w, Deliver(id, [ONE], [], "", Delivered)), w.ops[id];
      && w'.groups == w.groups && w'.slots == w.slots && w'.depths == w.depths && w'.notices == w.notices
      && Holds(w', op, op.next) && forall i :: 0 <= i < op.next && Holds(w, op, i) ==> Holds(w', op, i)
  {
    hide Inv, DeliveredRow, PutFragment, Holds, DeliverStep;
    var op := w.ops[id];
    TheOp(dir, w, id);
    var f := DeliveredRow(w.groups[op.group], op, [ONE], [], "");
    RowFacts(w.groups[op.group], op);
    DeliverStepIs(w, id, op, f, false);
    HoldsAfter(dir, w, id, f);
  }

  lemma PendingTwice(w: World, w1: World, w2: World, id: nat, op: Op, i: nat, j: nat)
    requires op.Sharing? && Pending(w, w1, w.ops[id := op.(next := i)])
    requires Pending(w1, w2, w1.ops[id := op.(next := i).(next := j)])
    ensures Pending(w, w2, w.ops[id := op.(next := j)])
  {
    hide Extends, SameManifests;
    FrameTrans(w, w1, w2);
    assert w.ops[id := op.(next := i)][id := op.(next := j)] == w.ops[id := op.(next := j)];
  }

  /** Deliveries go on until every member has its share. */
  lemma {:induction false} DeliverRest(p: Primitives, dir: Directory, r: Run, id: nat) returns (r': Run)
    requires ValidRun(p, dir, r) && id in Last(r).ops && Last(r).ops[id].Sharing?
    ensures ValidRun(p, dir, r') && Onward(r, r') && NoPuts(r, r') && NoStarts(r, r') && id in Last(r').ops
    ensures var op := Last(r).ops[id];
      && Pending(Last(r), Last(r'), Last(r).ops[id := op.(next := |op.members|)])
      && op.group in Last(r).groups && Dealt(Last(r), Last(r'), op, op.next)
    decreases |Last(r).ops[id].members| - Last(r).ops[id].next
  {
    hide IsRun, Inv, Enabled, Next, Frame, DeliveredRow, IsUserCommit, Holds;
    var w, op := Last(r), Last(r).ops[id];
    LastInv(p, dir, r);
    SharingBounds(dir, w, id);
    if op.next == |op.members| {
      r' := r;
      assert w.ops[id := op.(next := |op.members|)] == w.ops;
      NothingYetDone(r);
    } else {
      var f := DeliveredRow(w.groups[op.group], op, [ONE], [], "");
      RowFacts(w.groups[op.group], op);
      var a := Deliver(id, [ONE], [], "", Delivered);
      DeliverFacts(p, dir, w, id, f, Delivered);
      OneStep(p, dir, r, a);
      var r1 := Then(p, dir, r, a);
      DeliverKnows(p, dir, w, id);
      r' := DeliverRest(p, dir, r1, id);
      OnwardTrans(r, r1, r');
      PendingTwice(w, Last(r1), Last(r'), id, op, op.next + 1, |op.members|);
      DealtOn(w, Last(r1), Last(r'), op);
    }
  }

  /** The sharing is committed: its manifest is stored, every member it was still to reach has its
      row, and nothing more is known or sent. */
  ghost predicate Finished(w: World, w': World, op: Op) {
    && Dealt(w, w', op, if op.Sharing? then op.next else 0)
    && op.Sharing? && op.owner in w'.stores && op.name in w'.stores[op.owner].manifests && op.group in w'.groups
    && w'.stores[op.owner].manifests[op.name] == Normalized(NewManifest(w'.groups[op.group], op))
  }

  lemma NextManifest(g: Group, op: Op)
    requires op.Sharing?
    ensures NewManifest(g, op.(next := |op.members|)) == NewManifest(g, op)
  {
  }

  lemma CommitStored(p: Primitives, dir: Directory, w: World, id: nat)
    requires Enabled(p, dir, w, Commit(id))
    ensures var op, w' := w.ops[id], Next(p, dir, w, Commit(id));
      && op.group in w.groups && w'.groups == w.groups && w'.slots == w.slots
      && w'.depths == w.depths && w'.notices == w.notices
      && op.owner in w'.stores && op.name in w'.stores[op.owner].manifests
      && w'.stores[op.owner].manifests[op.name] == Normalized(NewManifest(w.groups[op.group], op))
  {
  }

  lemma CommitKeepsHolds(p: Primitives, dir: Directory, w: World, id: nat, op: Op, i: nat)
    requires Enabled(p, dir, w, Commit(id)) && Holds(w, op, i)
    ensures Holds(Next(p, dir, w, Commit(id)), op, i)
  {
    hide DeliveredRow, NewManifest;
  }

  lemma FinishedNow(p: Primitives, dir: Directory, w: World, w1: World, id: nat)
    requires id in w.ops && w.ops[id].Sharing? && Dealt(w, w1, w.ops[id], w.ops[id].next)
    requires id in w1.ops && w1.ops[id] == w.ops[id].(next := |w.ops[id].members|) && Enabled(p, dir, w1, Commit(id))
    ensures Finished(w, Next(p, dir, w1, Commit(id)), w.ops[id])
  {
    hide Holds, Normalized, Enabled, Next, NewManifest;
    assert w1.groups == w.groups;
    var op, w2 := w.ops[id], Next(p, dir, w1, Commit(id));
    CommitStored(p, dir, w1, id);
    NextManifest(w1.groups[op.group], op);
    forall i: nat | Holds(w1, op, i)
      ensures Holds(w2, op, i)
    {
      CommitKeepsHolds(p, dir, w1, id, op, i);
    }
  }

  lemma DealtGroups(w: World, w': World, op: Op)
    requires op.Sharing? && Dealt(w, w', op, op.next)
    ensures w'.groups == w.groups
  {
  }

  lemma PendingOps(w: World, w1: World, id: nat, op: Op)
    requires op.Sharing? && Pending(w, w1, w.ops[id := op.(next := |op.members|)])
    ensures id in w1.ops && w1.ops[id] == op.(next := |op.members|)
  {
  }

  lemma CommitIsCommitted(p: Primitives, dir: Directory, w: World, id: nat)
    requires Enabled(p, dir, w, Commit(id))
    ensures Next(p, dir, w, Commit(id)).groups == w.groups
    ensures IsUserCommit(w, Commit(id)) <==> !w.ops[id].reshare
  {
    hide PutManifest, NewManifest;
  }

  lemma ManifestNames(g: Group, op: Op)
    requires op.Sharing?
    ensures NewManifest(g, op).groupId == op.group && NewManifest(g, op).secretName == op.name
  {
  }

  lemma StoredHere(w: World, w': World, op: Op, m: Manifest)
    requires op.Sharing? && m.groupId == op.group && m.secretName == op.name && op.group in w'.groups
    requires Stored(w, w', op.owner, m.secretName, Some(w'.groups[m.groupId].secret))
    ensures Value(w', op.owner, op.name) == Some(w'.groups[op.group].secret)
  {
    hide Value;
  }

  /** A sharing is brought to its commit. */
  lemma FinishSharing(p: Primitives, dir: Directory, r: Run, id: nat) returns (r': Run)
    requires ValidRun(p, dir, r) && id in Last(r).ops && Last(r).ops[id].Sharing?
    ensures NoPuts(r, r') && NoStarts(r, r')
    ensures var op := Last(r).ops[id];
      && ValidRun(p, dir, r') && (op.reshare ==> Onward(r, r')) && op.group in Last(r).groups
      && r.actions <= r'.actions && r.states <= r'.states
      && Value(Last(r'), op.owner, op.name) == Some(Last(r).groups[op.group].secret)
      && Last(r').ops == Last(r).ops - {id} && Finished(Last(r), Last(r'), op)
  {
    hide IsRun, Inv, Enabled, Next, Value, Committed, NewManifest, IsUserCommit, Dealt, Frame, Finished;
    var op := Last(r).ops[id];
    var r1 := DeliverRest(p, dir, r, id);
    LastInv(p, dir, r);
    SharingBounds(dir, Last(r), id);
    LastInv(p, dir, r1);
    PendingOps(Last(r), Last(r1), id, op);
    DealtGroups(Last(r), Last(r1), op);
    CommitFacts(p, dir, Last(r), Last(r1), id, Last(r).ops[id := op.(next := |op.members|)]);
    CommitIsCommitted(p, dir, Last(r1), id);
    OneStep(p, dir, r1, Commit(id));
    r' := Then(p, dir, r1, Commit(id));
    if op.reshare {
      OnwardTrans(r, r1, r');
    }
    var m := NewManifest(Last(r1).groups[op.group], op.(next := |op.members|));
    ManifestNames(Last(r1).groups[op.group], op.(next := |op.members|));
    CommittedStores(dir, Last(r), Last(r'), op.owner, m);
    StoredHere(Last(r), Last(r'), op, m);
    assert Last(r).ops[id := op.(next := |op.members|)] - {id} == Last(r).ops - {id};
    FinishedNow(p, dir, Last(r), Last(r1), id);
  }

  // --- Finishing a collection and the reshare that it is for ---

  lemma CollectingManifest(dir: Directory, w: World, id: nat)
    requires Inv(dir, w) && id in w.ops && w.ops[id].Collecting?
    ensures ManifestOk(dir, w, w.ops[id].manifest) && w.ops[id].owner in w.stores
    ensures var m := w.ops[id].manifest;
      m.groupId in w.groups && w.ops[id].expected == w.groups[m.groupId].secret && GroupOk(dir, w.groups[m.groupId])
  {
    hide Inv, ManifestOk, FetchedOk;
    TheOp(dir, w, id);
    ManifestFacts(dir, w, w.ops[id].manifest);
  }

  lemma OneMoreShare(fetched: seq<Option<Bytes>>, share: Bytes)
    ensures |Shares(fetched + [Some(share)])| == |Shares(fetched)| + 1
  {
    assert (fetched + [Some(share)])[..|fetched|] == fetched;
  }

  lemma OnwardPrefix(r: Run, r': Run)
    requires Onward(r, r')
    ensures r.states <= r'.states && r.actions <= r'.actions
  {
  }

  lemma NoPutsTrans(r: Run, r1: Run, r2: Run)
    requires NoPuts(r, r1) && NoPuts(r1, r2) && r1.actions <= r2.actions
    ensures NoPuts(r, r2)
  {
    forall i | |r.actions| <= i < |r2.actions|
      ensures !r2.actions[i].PutNewRow?
    {
      if i < |r1.actions| {
        assert r2.actions[i] == r1.actions[i];
      }
    }
  }

  /** The remaining members all answer, until there are enough shares. */
  lemma {:induction false} FetchRest(p: Primitives, dir: Directory, r: Run, id: nat) returns (r': Run)
    requires ValidRun(p, dir, r) && id in Last(r).ops && Last(r).ops[id].Collecting?
    requires Hopeful(Last(r).ops[id].manifest, Last(r).ops[id].fetched)
    ensures ValidRun(p, dir, r') && Onward(r, r') && NoPuts(r, r') && id in Last(r').ops && Last(r').ops[id].Collecting?
    ensures var op, op' := Last(r).ops[id], Last(r').ops[id];
      && op' == op.(fetched := op'.fetched) && Last(r') == Last(r).(ops := Last(r).ops[id := op'])
      && |Shares(op'.fetched)| >= op.manifest.threshold
    decreases |Last(r).ops[id].manifest.members| - |Last(r).ops[id].fetched|
  {
    hide IsRun, Inv, Enabled, Next, Onward, Shares, ShareOf;
    var w, op := Last(r), Last(r).ops[id];
    LastInv(p, dir, r);
    CollectingManifest(dir, w, id);
    if |Shares(op.fetched)| >= op.manifest.threshold {
      r' := r;
      NothingYetDone(r);
      assert w.ops[id := op] == w.ops;
    } else {
      var row := MemberHasRow(dir, w, op.manifest, |op.fetched|);
      FetchStep(p, dir, w, id, op.manifest, Some(row));
      var a := Fetch(id, Some(row.pid));
      OneStep(p, dir, r, a);
      var r1 := Then(p, dir, r, a);
      OneMoreShare(op.fetched, ShareOf(w.groups[op.manifest.groupId], |op.fetched|));
      r' := FetchRest(p, dir, r1, id);
      OnwardTrans(r, r1, r');
      OnwardPrefix(r1, r');
      NoPutsTrans(r, r1, r');
      assert w.ops[id := Last(r1).ops[id]][id := Last(r').ops[id]] == w.ops[id := Last(r').ops[id]];
    }
  }

  lemma OnePut(p: Primitives, dir: Directory, r: Run, a: Action)
    requires |r.states| == |r.actions| + 1 && Enabled(p, dir, Last(r), a) && !a.PutNewRow?
    ensures NoPuts(r, Then(p, dir, r, a))
  {
    hide Enabled, Next;
  }

  lemma NewGroup(w: World, from: nat)
    requires forall s :: s in w.groups.Keys ==> |s| < from
    ensures Text(from) !in w.groups
  {
    assert |Text(from)| == from;
  }

  lemma EnoughIsOk(dir: Directory, w: World, id: nat)
    requires Inv(dir, w) && id in w.ops && w.ops[id].Collecting?
    requires |Shares(w.ops[id].fetched)| >= w.ops[id].manifest.threshold
    ensures Collected(w.ops[id].manifest, w.ops[id].fetched)
    ensures CollectResult(w.ops[id].manifest, w.ops[id].fetched) == Ok(w.ops[id].expected)
  {
    hide Inv, Shares, CollectResult, ManifestOk, ShareOf;
    TheOp(dir, w, id);
    assert Collected(w.ops[id].manifest, w.ops[id].fetched);
    AnsweredCount(w.ops[id].fetched);
    CollectionReturnsSecret(dir, w, w.ops[id]);
  }

  lemma ResharingBegins(p: Primitives, dir: Directory, w: World, id: nat, gid: GroupId, g: Group, pids: seq<Pid>)
    requires id in w.ops && w.ops[id].Collecting? && w.ops[id].reshare && w.ops[id].owner in w.stores
    requires Collected(w.ops[id].manifest, w.ops[id].fetched)
    requires CollectResult(w.ops[id].manifest, w.ops[id].fetched) == Ok(g.secret)
    requires gid !in w.groups && GroupOk(dir, g) && |pids| == |g.holders| && NewPids(w, pids)
    ensures var a := BeginResharing(id, "secret", gid, g, pids);
      && Enabled(p, dir, w, a) && !IsUserCommit(w, a)
      && var w' := Next(p, dir, w, a);
      && id in w'.ops && w'.ops[id].Sharing? && w'.ops[id].reshare && w'.ops[id].owner == w.ops[id].owner
      && w'.ops[id].name == w.ops[id].manifest.secretName && w'.ops[id].group == gid
      && gid in w'.groups && w'.groups[gid] == g && w'.ops == w.ops[id := w'.ops[id]]
  {
    hide Collected, CollectResult, GroupOk, NewPids, MembersFor;
  }

  /** A hopeful reshare goes through: the bytes that its collection read are stored again. */
  lemma FinishReshare(p: Primitives, dir: Directory, r: Run, id: nat) returns (r': Run)
    requires ValidRun(p, dir, r) && id in Last(r).ops && Last(r).ops[id].Collecting? && Last(r).ops[id].reshare
    requires Hopeful(Last(r).ops[id].manifest, Last(r).ops[id].fetched)
    ensures ValidRun(p, dir, r') && Onward(r, r') && NoPuts(r, r')
    ensures var op := Last(r).ops[id];
      && Value(Last(r'), op.owner, op.manifest.secretName) == Some(op.expected)
      && Last(r').ops == Last(r).ops - {id}
      && op.owner in Last(r').stores && op.manifest.secretName in Last(r').stores[op.owner].manifests
      && Last(r').stores[op.owner].manifests[op.manifest.secretName].groupId !in Last(r).groups
  {
    hide IsRun, Inv, Enabled, Next, Onward, Shares, Collected, CollectResult, Value, GroupOk, Pending, NewPids,
      MembersFor, Answered, Dealt, NoPuts, Then;
    var r1 := FetchRest(p, dir, r, id);
    LastInv(p, dir, r1);
    var w, op := Last(r1), Last(r1).ops[id];
    CollectingManifest(dir, w, id);
    EnoughIsOk(dir, w, id);
    var g := w.groups[op.manifest.groupId];
    var from := LongerThanAll(w.slots.Keys + w.groups.Keys);
    var gid, pids := Text(from), SpacedPids(from, |g.holders|);
    SpacedPidsAreNew(w, from, |g.holders|);
    NewGroup(w, from);
    ResharingBegins(p, dir, w, id, gid, g, pids);
    var a := BeginResharing(id, "secret", gid, g, pids);
    OneStep(p, dir, r1, a);
    var r2 := Then(p, dir, r1, a);
    OnwardTrans(r, r1, r2);
    r' := FinishSharing(p, dir, r2, id);
    OnwardTrans(r, r2, r');
    OnwardPrefix(r, r1);
    OnwardPrefix(r1, r2);
    OnwardPrefix(r2, r');
    OnePut(p, dir, r1, a);
    NoPutsTrans(r, r1, r2);
    NoPutsTrans(r, r2, r');
    assert Last(r2).ops - {id} == Last(r).ops - {id};
  }

  // --- Finishing anything that writes bytes ---

  lemma WritesBack(p: Primitives, dir: Directory, w: World, id: nat)
    requires Inv(dir, w) && id in w.ops && w.ops[id].WritingBack?
    ensures Enabled(p, dir, w, WriteManifest(id)) && !IsUserCommit(w, WriteManifest(id))
    ensures Value(Next(p, dir, w, WriteManifest(id)), w.ops[id].node, w.ops[id].manifest.secretName)
      == Cargo(w, w.ops[id])
  {
    hide Inv, Value, MembersOk, ManifestOk;
    TheOp(dir, w, id);
    ManifestGroup(dir, w, w.ops[id].manifest);
    StoredValue(w, w.ops[id].node, w.ops[id].manifest, id, w.ops[id].node, w.ops[id].manifest.secretName);
  }

  /** Every pending reshare that can still go through, and every pending manifest rewrite, can be
      brought to the point where its bytes are the ones stored under its name. */
  lemma FinishOp(p: Primitives, dir: Directory, r: Run, id: nat) returns (r': Run)
    requires ValidRun(p, dir, r) && id in Last(r).ops && Target(Last(r).ops[id]).Some?
    ensures ValidRun(p, dir, r') && Onward(r, r')
    ensures Value(Last(r'), Target(Last(r).ops[id]).value.0, Target(Last(r).ops[id]).value.1)
      == Cargo(Last(r), Last(r).ops[id])
  {
    hide IsRun, Inv, Enabled, Next, Onward, Value;
    var w, op := Last(r), Last(r).ops[id];
    LastInv(p, dir, r);
    match op
    case Sharing(_, _, _, _, _, _, _) => r' := FinishSharing(p, dir, r, id);
    case Collecting(_, m, _, _, _) =>
      CollectingManifest(dir, w, id);
      r' := FinishReshare(p, dir, r, id);
    case WritingBack(n, m, _) =>
      WritesBack(p, dir, w, id);
      OneStep(p, dir, r, WriteManifest(id));
      r' := Then(p, dir, r, WriteManifest(id));
    case _ =>
  }

  // --- Starting new operations ---

  /** The operation that shares out a new group for a user. */
  ghost function UserSharing(dir: Directory, owner: NodeId, name: Name, g: Group, from: nat): Op
    requires forall i :: 0 <= i < |g.holders| ==> g.holders[i] in dir
  {
    Sharing(owner, name, "secret", Text(from), MembersFor(dir, g.holders, SpacedPids(from, |g.holders|)), 0, false)
  }

  lemma UserSharingBegins(p: Primitives, dir: Directory, w: World, id: nat, owner: NodeId, name: Name, g: Group,
                          from: nat)
    requires id !in w.ops && owner in w.stores && GroupOk(dir, g) && Text(from) !in w.groups
    requires NewPids(w, SpacedPids(from, |g.holders|))
    ensures var a := BeginSharing(id, owner, name, "secret", Text(from), g, SpacedPids(from, |g.holders|));
      && Enabled(p, dir, w, a) && !IsUserCommit(w, a)
      && var w' := Next(p, dir, w, a);
      && w'.stores == w.stores && w'.groups == w.groups[Text(from) := g]
      && w'.depths == w.depths && w'.notices == w.notices
      && w'.ops == w.ops[id := UserSharing(dir, owner, name, g, from)]
      && forall q :: q in w'.slots ==> q in w.slots || q in SpacedPids(from, |g.holders|)
  {
    hide GroupOk, NewPids, MembersFor, SpacedPids;
  }

  lemma BeginUserSharing(p: Primitives, dir: Directory, r: Run, id: nat, owner: NodeId, name: Name, g: Group, from: nat)
    returns (r': Run)
    requires ValidRun(p, dir, r) && id !in Last(r).ops && owner in Last(r).stores && GroupOk(dir, g)
    requires forall s :: s in Last(r).slots.Keys + Last(r).groups.Keys ==> |s| < from
    ensures ValidRun(p, dir, r') && Onward(r, r') && NoPuts(r, r')
    ensures var w, w' := Last(r), Last(r');
      && w'.stores == w.stores && w'.groups == w.groups[Text(from) := g]
      && w'.depths == w.depths && w'.notices == w.notices
      && w'.ops == w.ops[id := UserSharing(dir, owner, name, g, from)]
      && forall q :: q in w'.slots ==> q in w.slots || q in SpacedPids(from, |g.holders|)
  {
    hide IsRun, GroupOk, NewPids, Enabled, Next, IsUserCommit, MembersFor, SpacedPids, UserSharing, Onward;
    var pids := SpacedPids(from, |g.holders|);
    SpacedPidsAreNew(Last(r), from, |g.holders|);
    NewGroup(Last(r), from);
    UserSharingBegins(p, dir, Last(r), id, owner, name, g, from);
    var a := BeginSharing(id, owner, name, "secret", Text(from), g, pids);
    OneStep(p, dir, r, a);
    r' := Then(p, dir, r, a);
  }

  /** A user stores a secret: everybody gets a share, and the manifest is committed. */
  lemma StoreSecret(p: Primitives, dir: Directory, r: Run, id: nat, owner: NodeId, name: Name, g: Group, from: nat)
    returns (r': Run)
    requires ValidRun(p, dir, r) && id !in Last(r).ops && owner in Last(r).stores && GroupOk(dir, g)
    requires forall s :: s in Last(r).slots.Keys + Last(r).groups.Keys ==> |s| < from
    ensures ValidRun(p, dir, r') && NoPuts(r, r') && Last(r').ops == Last(r).ops
    ensures r.actions <= r'.actions && r.states <= r'.states
    ensures var w', op := Last(r'), UserSharing(dir, owner, name, g, from);
      && w'.groups == Last(r).groups[Text(from) := g] && w'.depths == Last(r).depths && w'.notices == Last(r).notices
      && (forall q :: q in w'.slots ==> q in Last(r).slots || q in SpacedPids(from, |g.holders|))
      && (forall i :: 0 <= i < |op.members| ==> Holds(w', op, i))
      && owner in w'.stores && name in w'.stores[owner].manifests
      && w'.stores[owner].manifests[name] == Normalized(NewManifest(g, op))
  {
    hide IsRun, GroupOk, MembersFor, SpacedPids, NewManifest, Normalized, Holds, Value, Inv, NoPuts, Then;
    var r1 := BeginUserSharing(p, dir, r, id, owner, name, g, from);
    r' := FinishSharing(p, dir, r1, id);
    NoPutsTrans(r, r1, r');
    assert Last(r1).ops - {id} == Last(r).ops;
  }

  // --- A whole mutation ---

  lemma MutationBegins(p: Primitives, dir: Directory, w: World, id: nat, n: NodeId, pid: Pid, d: Drive)
    requires n in w.stores && pid in w.stores[n].fragments
    requires Mutated(p, w.stores[n].fragments[pid], d).Some? && id !in w.ops
    ensures var a, f := BeginMutation(id, n, pid, d), w.stores[n].fragments[pid];
      && Enabled(p, dir, w, a) && !IsUserCommit(w, a)
      && Next(p, dir, w, a) == w.(ops := w.ops[id := Mutating(n, f, Mutated(p, f, d).value, false)])
  {
    hide Mutated;
  }

  lemma MutationPuts(p: Primitives, dir: Directory, w: World, id: nat)
    requires id in w.ops && w.ops[id].Mutating? && !w.ops[id].stored
    requires w.ops[id].node in w.stores && w.ops[id].row.pid in w.slots
    requires RotationUsable(w, w.ops[id].row, w.ops[id].target.pid)
    ensures var a, op := PutNewRow(id), w.ops[id];
      && Enabled(p, dir, w, a) && !IsUserCommit(w, a) && (op.target.pid !in w.slots ==> NewRotation(w, a))
      && var w' := Next(p, dir, w, a);
      && w'.groups == w.groups && w'.notices == w.notices && w'.ops == w.ops[id := op.(stored := true)]
      && w'.stores == w.stores[op.node := PutFragment(w.stores[op.node], op.target)]
      && w'.slots == w.slots[op.target.pid := w.slots[op.row.pid]]
      && w'.depths == w.depths[op.target.pid := Depth(w, op.row.pid) + 1]
  {
    hide PutFragment;
  }

  lemma MutationDeletes(p: Primitives, dir: Directory, w: World, id: nat)
    requires id in w.ops && w.ops[id].Mutating? && w.ops[id].stored
    requires w.ops[id].node in w.stores && w.ops[id].node in dir
    ensures var a, op := DeleteOldRow(id), w.ops[id];
      && Enabled(p, dir, w, a) && !IsUserCommit(w, a)
      && var w' := Next(p, dir, w, a);
      && w'.groups == w.groups && w'.ops == w.ops - {id} && w'.slots == w.slots && w'.depths == w.depths
      && w'.stores == w.stores[op.node := DeleteFragment(w.stores[op.node], op.row.pid)]
      && w'.notices == w.notices
           + {Notice(op.row.groupId, op.row.groupToken, op.row.pid, op.target.pid, dir[op.node], op.target.epoch)}
  {
    hide DeleteFragment;
  }

  /** The three steps of one mutation: it begins by reading the row, puts the new one and deletes
      the old one. */
  predicate IsMutation(steps: seq<Action>, n: NodeId, pid: Pid, d: Drive) {
    && |steps| == 3 && steps[0].BeginMutation?
    && var id := steps[0].id;
    steps == [BeginMutation(id, n, pid, d), PutNewRow(id), DeleteOldRow(id)]
  }

  lemma OtherStepsRotateNothing(w: World, a: Action)
    ensures !a.PutNewRow? ==> NewRotation(w, a)
  {
  }

  /** One row's whole mutation. */
  lemma MutateRow(p: Primitives, dir: Directory, r: Run, n: NodeId, pid: Pid, d: Drive) returns (r': Run)
    requires ValidRun(p, dir, r) && n in Last(r).stores && n in dir && pid in Last(r).stores[n].fragments
    requires Mutated(p, Last(r).stores[n].fragments[pid], d).Some?
    requires RotationUsable(Last(r), Last(r).stores[n].fragments[pid],
                            Mutated(p, Last(r).stores[n].fragments[pid], d).value.pid)
    ensures ValidRun(p, dir, r') && r.states <= r'.states && |r'.actions| == |r.actions| + 3 && r.actions <= r'.actions
    ensures IsMutation(r'.actions[|r.actions|..], n, pid, d)
    ensures Mutated(p, Last(r).stores[n].fragments[pid], d).value.pid !in Last(r).slots ==>
      forall i :: |r.actions| <= i < |r'.actions| ==> NewRotation(r'.states[i], r'.actions[i])
    ensures pid in Last(r).slots
    ensures var w, w' := Last(r), Last(r');
      var f, f' := w.stores[n].fragments[pid], Mutated(p, w.stores[n].fragments[pid], d).value;
      && w'.ops == w.ops && w'.groups == w.groups
      && w'.stores == w.stores[n := DeleteFragment(PutFragment(w.stores[n], f'), pid)]
      && w'.notices == w.notices + {Notice(f.groupId, f.groupToken, pid, f'.pid, dir[n], f'.epoch)}
      && w'.slots == w.slots[f'.pid := w.slots[pid]] && w'.depths == w.depths[f'.pid := Depth(w, pid) + 1]
  {
    hide IsRun, Inv, Mutated, IsUserCommit, PutFragment, DeleteFragment, RowOk, Enabled, Next, Onward, NewRotation;
    var w := Last(r);
    LastInv(p, dir, r);
    TheRow(dir, w, n, pid);
    RowSlot(dir, w, n, w.stores[n].fragments[pid]);
    var id := FreshId(w);
    var b := BeginMutation(id, n, pid, d);
    MutationBegins(p, dir, w, id, n, pid, d);
    OneStep(p, dir, r, b);
    var r1 := Then(p, dir, r, b);
    MutationPuts(p, dir, Last(r1), id);
    OneStep(p, dir, r1, PutNewRow(id));
    var r2 := Then(p, dir, r1, PutNewRow(id));
    MutationDeletes(p, dir, Last(r2), id);
    OneStep(p, dir, r2, DeleteOldRow(id));
    r' := Then(p, dir, r2, DeleteOldRow(id));
    OtherStepsRotateNothing(w, b);
    OtherStepsRotateNothing(Last(r2), DeleteOldRow(id));
    assert Last(r').ops == w.ops;
    assert r'.actions[|r.actions|..] == [b, PutNewRow(id), DeleteOldRow(id)];
  }

  // --- A whole notice handler ---

  /** The store with these rows' member lists replaced. */
  ghost function WithLists(s: StoreState, lists: map<Pid, seq<Member>>): StoreState {
    s.(fragments := map q | q in s.fragments ::
      if q in lists then s.fragments[q].(members := lists[q]) else s.fragments[q])
  }

  lemma NoLists(s: StoreState)
    ensures WithLists(s, map[]) == s
  {
  }

  lemma FewerKeys(updates: map<Pid, seq<Member>>, q: Pid)
    requires q in updates
    ensures |updates - {q}| < |updates|
  {
    assert (updates - {q}).Keys == updates.Keys - {q};
    assert |(updates - {q}).Keys| < |updates.Keys|;
  }

  lemma ListsOneByOne(s: StoreState, updates: map<Pid, seq<Member>>, q: Pid)
    requires q in updates && q in s.fragments
    ensures WithLists(s.(fragments := s.fragments[q := s.fragments[q].(members := updates[q])]), updates - {q})
      == WithLists(s, updates)
  {
  }

  lemma WriteOne(p: Primitives, dir: Directory, w: World, id: nat, q: Pid)
    requires id in w.ops && w.ops[id].Updating? && q in w.ops[id].updates
    requires w.ops[id].node in w.stores && q in w.stores[w.ops[id].node].fragments
    ensures var a, op := WriteRow(id, q), w.ops[id];
      && Enabled(p, dir, w, a)
      && var w', s := Next(p, dir, w, a), w.stores[op.node];
      && w'.groups == w.groups && w'.notices == w.notices && w'.ops == w.ops[id := op.(updates := op.updates - {q})]
      && w'.stores == w.stores[op.node := s.(fragments := s.fragments[q := s.fragments[q].(members := op.updates[q])])]
  {
  }

  /** The world with these lists written to the node's rows, and a pending operation moved on. */
  ghost predicate ListsWritten(w: World, w': World, id: nat, n: NodeId, lists: map<Pid, seq<Member>>) {
    && w'.groups == w.groups && w'.notices == w.notices && id in w'.ops && w'.ops == w.ops[id := w'.ops[id]]
    && n in w.stores && w'.stores == w.stores[n := WithLists(w.stores[n], lists)]
  }

  lemma OneListMore(w: World, w1: World, w': World, id: nat, q: Pid)
    requires id in w.ops && w.ops[id].Updating? && q in w.ops[id].updates
    requires w.ops[id].node in w.stores && q in w.stores[w.ops[id].node].fragments
    requires var op, s := w.ops[id], w.stores[w.ops[id].node];
      && w1.groups == w.groups && w1.notices == w.notices && w1.ops == w.ops[id := op.(updates := op.updates - {q})]
      && w1.stores == w.stores[op.node := s.(fragments := s.fragments[q := s.fragments[q].(members := op.updates[q])])]
    requires ListsWritten(w1, w', id, w.ops[id].node, w.ops[id].updates - {q})
    ensures ListsWritten(w, w', id, w.ops[id].node, w.ops[id].updates)
  {
    hide WithLists;
    ListsOneByOne(w.stores[w.ops[id].node], w.ops[id].updates, q);
    assert w.ops[id := w1.ops[id]][id := w'.ops[id]] == w.ops[id := w'.ops[id]];
  }

  lemma NoneWritten(w: World, id: nat, n: NodeId)
    requires id in w.ops && n in w.stores
    ensures ListsWritten(w, w, id, n, map[])
  {
    hide WithLists;
    NoLists(w.stores[n]);
    assert w.ops[id := w.ops[id]] == w.ops;
  }

  /** Writes of one handler, each to another row. */
  predicate AreWrites(steps: seq<Action>, id: nat) {
    && (forall k :: 0 <= k < |steps| ==> steps[k].WriteRow? && steps[k].id == id)
    && forall j, k :: 0 <= j < k < |steps| ==> steps[j].pid != steps[k].pid
  }

  lemma NoWrites(id: nat)
    ensures AreWrites([], id)
  {
  }

  lemma OneWriteMore(q: Pid, id: nat, steps: seq<Action>, updates: map<Pid, seq<Member>>)
    requires AreWrites(steps, id) && forall k :: 0 <= k < |steps| ==> steps[k].pid in updates - {q}
    requires q in updates
    ensures AreWrites([WriteRow(id, q)] + steps, id)
    ensures forall k :: 0 <= k < |[WriteRow(id, q)] + steps| ==>
      ([WriteRow(id, q)] + steps)[k].WriteRow? && ([WriteRow(id, q)] + steps)[k].pid in updates
  {
  }

  /** The rows still to be written are written one by one. */
  lemma {:induction false} WriteRest(p: Primitives, dir: Directory, r: Run, id: nat) returns (r': Run)
    requires ValidRun(p, dir, r) && id in Last(r).ops
    requires Last(r).ops[id].Updating? && Last(r).ops[id].node in Last(r).stores
    requires Last(r).ops[id].updates.Keys <= Last(r).stores[Last(r).ops[id].node].fragments.Keys
    ensures ValidRun(p, dir, r') && r.states <= r'.states && r.actions <= r'.actions
    ensures ListsWritten(Last(r), Last(r'), id, Last(r).ops[id].node, Last(r).ops[id].updates)
    ensures AreWrites(r'.actions[|r.actions|..], id)
    ensures forall k :: 0 <= k < |r'.actions[|r.actions|..]| ==>
      r'.actions[|r.actions|..][k].WriteRow? && r'.actions[|r.actions|..][k].pid in Last(r).ops[id].updates
    decreases |Last(r).ops[id].updates|
  {
    hide IsRun, Enabled, Next, IsUserCommit, Onward, ListsWritten, AreWrites;
    var w, op := Last(r), Last(r).ops[id];
    if op.updates == map[] {
      r' := r;
      NoneWritten(w, id, op.node);
      NoWrites(id);
      assert r'.actions[|r.actions|..] == [];
    } else {
      var q :| q in op.updates;
      WriteOne(p, dir, w, id, q);
      OneStep(p, dir, r, WriteRow(id, q));
      var r1 := Then(p, dir, r, WriteRow(id, q));
      FewerKeys(op.updates, q);
      r' := WriteRest(p, dir, r1, id);
      OneListMore(w, Last(r1), Last(r'), id, q);
      OneWriteMore(q, id, r'.actions[|r1.actions|..], op.updates);
      assert r'.actions[|r.actions|..] == [WriteRow(id, q)] + r'.actions[|r1.actions|..];
    }
  }

  lemma NothingToRotate(ms: seq<Member>, nt: Notice)
    requires !Custody.Lists(ms, nt.oldPid)
    ensures Rotated(ms, nt.oldPid, nt.newPid, nt.newEndpoint) == ms
  {
  }

  /** The updates that a handler draws up are those of the sibling rows. */
  lemma UpdatesAreSibling(s: StoreState, nt: Notice, updates: map<Pid, seq<Member>>)
    requires forall q :: q in updates <==> q in s.fragments && s.fragments[q].groupId == nt.groupId
                                           && Custody.Lists(s.fragments[q].members, nt.oldPid)
    requires forall q :: q in updates ==>
      q in s.fragments && updates[q] == Rotated(s.fragments[q].members, nt.oldPid, nt.newPid, nt.newEndpoint)
    ensures WithLists(s, updates) == UpdateSibling(s, nt.groupId, nt.oldPid, nt.newPid, nt.newEndpoint)
  {
    hide Rotated;
    forall q | q in s.fragments && !Custody.Lists(s.fragments[q].members, nt.oldPid)
      ensures Rotated(s.fragments[q].members, nt.oldPid, nt.newPid, nt.newEndpoint) == s.fragments[q].members
    {
      NothingToRotate(s.fragments[q].members, nt);
    }
  }

  lemma RowsRead(p: Primitives, dir: Directory, w: World, id: nat, n: NodeId, nt: Notice)
    requires id !in w.ops && n in w.stores && nt in w.notices
    ensures var a := ReadRows(id, n, nt);
      && Enabled(p, dir, w, a)
      && var w' := Next(p, dir, w, a);
      && w' == w.(ops := w'.ops) && id in w'.ops && w'.ops == w.ops[id := w'.ops[id]]
      && w'.ops[id].Updating? && w'.ops[id].node == n && w'.ops[id].updates.Keys <= w.stores[n].fragments.Keys
      && WithLists(w.stores[n], w'.ops[id].updates)
           == UpdateSibling(w.stores[n], nt.groupId, nt.oldPid, nt.newPid, nt.newEndpoint)
  {
    hide Rotated, Custody.Lists, WithLists, UpdateSibling;
    UpdatesAreSibling(w.stores[n], nt, Next(p, dir, w, ReadRows(id, n, nt)).ops[id].updates);
  }

  lemma StopsQuietly(p: Primitives, dir: Directory, w: World, id: nat)
    requires id in w.ops
    ensures Enabled(p, dir, w, Stop(id)) && Next(p, dir, w, Stop(id)) == w.(ops := w.ops - {id})
  {
  }

  /** The steps of a handler that folds a notice into the rows: one read, its writes, and the end. */
  predicate IsRowsHandler(steps: seq<Action>, n: NodeId, nt: Notice) {
    && |steps| >= 2 && steps[0].ReadRows?
    && var id := steps[0].id;
    && steps[0] == ReadRows(id, n, nt) && AreWrites(steps[1..|steps| - 1], id)
    && steps[|steps| - 1] == Stop(id)
  }

  /** Folding a notice into all rows of its group, from the read to the last write. */
  lemma FoldIntoRows(p: Primitives, dir: Directory, r: Run, n: NodeId, nt: Notice) returns (r': Run)
    requires ValidRun(p, dir, r) && n in Last(r).stores && nt in Last(r).notices
    ensures ValidRun(p, dir, r') && r.states <= r'.states && r.actions <= r'.actions
    ensures IsRowsHandler(r'.actions[|r.actions|..], n, nt)
    ensures var w, w' := Last(r), Last(r');
      && w'.ops == w.ops && w'.groups == w.groups && w'.notices == w.notices
      && w'.stores == w.stores[n := UpdateSibling(w.stores[n], nt.groupId, nt.oldPid, nt.newPid, nt.newEndpoint)]
  {
    hide IsRun, Enabled, Next, UpdateSibling, WithLists, IsUserCommit, Onward, AreWrites;
    var w := Last(r);
    var id := FreshId(w);
    RowsRead(p, dir, w, id, n, nt);
    OneStep(p, dir, r, ReadRows(id, n, nt));
    var r1 := Then(p, dir, r, ReadRows(id, n, nt));
    var r2 := WriteRest(p, dir, r1, id);
    StopsQuietly(p, dir, Last(r2), id);
    OneStep(p, dir, r2, Stop(id));
    r' := Then(p, dir, r2, Stop(id));
    assert Last(r').ops == w.ops;
    assert r'.actions[|r.actions|..] == [ReadRows(id, n, nt)] + r2.actions[|r1.actions|..] + [Stop(id)];
    assert r'.actions[|r.actions|..][1..|r'.actions| - |r.actions| - 1] == r2.actions[|r1.actions|..];
  }

  lemma ManifestFolds(p: Primitives, dir: Directory, w: World, id: nat, n: NodeId, name: Name, nt: Notice)
    requires id !in w.ops && n in w.stores && nt in w.notices && name in w.stores[n].manifests
    requires w.stores[n].manifests[name].groupId == nt.groupId
    ensures var m, a, b := w.stores[n].manifests[name], ReadManifest(id, n, name, nt), WriteManifest(id);
      && Enabled(p, dir, w, a)
      && var w1 := Next(p, dir, w, a);
      && Enabled(p, dir, w1, b)
      && var w2 := Next(p, dir, w1, b);
      && w2.ops == w.ops && w2.groups == w.groups && w2.notices == w.notices
      && w2.stores == w.stores[n := PutManifest(w.stores[n], RotateManifest(m, nt.oldPid, nt.newPid, nt.newEndpoint))]
  {
    hide PutManifest, RotateManifest;
    var w1 := Next(p, dir, w, ReadManifest(id, n, name, nt));
    assert w1.ops - {id} == w.ops;
  }

  predicate IsManifestHandler(steps: seq<Action>, n: NodeId, nt: Notice) {
    && |steps| == 2 && steps[0].ReadManifest?
    && steps == [ReadManifest(steps[0].id, n, steps[0].name, nt), WriteManifest(steps[0].id)]
  }

  /** And into a manifest of the group. */
  lemma FoldIntoManifest(p: Primitives, dir: Directory, r: Run, n: NodeId, name: Name, nt: Notice) returns (r': Run)
    requires ValidRun(p, dir, r) && n in Last(r).stores && nt in Last(r).notices
    requires name in Last(r).stores[n].manifests && Last(r).stores[n].manifests[name].groupId == nt.groupId
    ensures ValidRun(p, dir, r') && r.states <= r'.states && r.actions <= r'.actions
    ensures IsManifestHandler(r'.actions[|r.actions|..], n, nt)
    ensures var w, w' := Last(r), Last(r');
      && w'.ops == w.ops && w'.groups == w.groups && w'.notices == w.notices
      && w'.stores == w.stores[n := PutManifest(w.stores[n],
           RotateManifest(w.stores[n].manifests[name], nt.oldPid, nt.newPid, nt.newEndpoint))]
  {
    hide IsRun, Enabled, Next, PutManifest, RotateManifest, IsUserCommit, Onward;
    var id := FreshId(Last(r));
    ManifestFolds(p, dir, Last(r), id, n, name, nt);
    OneStep(p, dir, r, ReadManifest(id, n, name, nt));
    var r1 := Then(p, dir, r, ReadManifest(id, n, name, nt));
    OneStep(p, dir, r1, WriteManifest(id));
    r' := Then(p, dir, r1, WriteManifest(id));
    assert r'.actions[|r.actions|..] == [ReadManifest(id, n, name, nt), WriteManifest(id)];
  }

  /** The whole handler: the rows, then the manifest if there is one of the group. */
  ghost predicate IsHandler(steps: seq<Action>, n: NodeId, nt: Notice, listed: bool) {
    exists k :: 0 <= k <= |steps| && IsRowsHandler(steps[..k], n, nt)
                && if listed then IsManifestHandler(steps[k..], n, nt) else steps[k..] == []
  }

  lemma RowsThenManifest(rows: seq<Action>, rest: seq<Action>, n: NodeId, nt: Notice, listed: bool)
    requires IsRowsHandler(rows, n, nt) && if listed then IsManifestHandler(rest, n, nt) else rest == []
    ensures IsHandler(rows + rest, n, nt, listed)
  {
    hide IsRowsHandler, IsManifestHandler;
    assert (rows + rest)[..|rows|] == rows && (rows + rest)[|rows|..] == rest;
  }
}
