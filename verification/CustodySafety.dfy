/** Every step of the custody protocol keeps its invariant. */
module CustodySafety {
  import opened Wrappers
  import opened Ids
  import opened Shamir
  import opened Store
  import opened Ratchet
  import opened Mutation
  import opened Custody

  // --- Carrying the invariant over to a later world ---

  /** Every row of the later world was there before, or is right. */
  ghost predicate RowsChange(dir: Directory, w: World, w': World) {
    forall n, p :: n in w'.stores && n in w.stores && p in w'.stores[n].fragments ==>
      || (p in w.stores[n].fragments && w'.stores[n].fragments[p] == w.stores[n].fragments[p])
      || (w'.stores[n].fragments[p].pid == p && RowOk(dir, w', n, w'.stores[n].fragments[p]))
  }

  ghost predicate ManifestsChange(dir: Directory, w: World, w': World) {
    forall n, name :: n in w'.stores && n in w.stores && name in w'.stores[n].manifests ==>
      || (name in w.stores[n].manifests && w'.stores[n].manifests[name] == w.stores[n].manifests[name])
      || (w'.stores[n].manifests[name].secretName == name && ManifestOk(dir, w', w'.stores[n].manifests[name]))
  }

  ghost predicate OpsChange(dir: Directory, w: World, w': World) {
    forall id :: id in w'.ops ==>
      && ((id in w.ops && w'.ops[id] == w.ops[id]) || OpOk(dir, w', w'.ops[id]))
      && Deletable(w', w'.ops[id])
  }

  ghost predicate NoticesChange(dir: Directory, w: World, w': World) {
    forall nt :: nt in w'.notices ==> nt in w.notices || NoticeOk(dir, w', nt)
  }

  lemma RowsCarry(dir: Directory, w: World, w': World)
    requires RowsOk(dir, w) && Extends(w, w') && RowsChange(dir, w, w')
    ensures RowsOk(dir, w')
  {
    hide RowOk;
    forall n, p | n in w'.stores && p in w'.stores[n].fragments
      ensures w'.stores[n].fragments[p].pid == p && RowOk(dir, w', n, w'.stores[n].fragments[p])
    {
      if p in w.stores[n].fragments && w'.stores[n].fragments[p] == w.stores[n].fragments[p] {
        RowOkExtends(dir, w, w', n, w.stores[n].fragments[p]);
      }
    }
  }

  lemma ManifestsCarry(dir: Directory, w: World, w': World)
    requires ManifestsOk(dir, w) && Extends(w, w') && ManifestsChange(dir, w, w')
    ensures ManifestsOk(dir, w')
  {
    hide ManifestOk;
    forall n, name | n in w'.stores && name in w'.stores[n].manifests
      ensures w'.stores[n].manifests[name].secretName == name && ManifestOk(dir, w', w'.stores[n].manifests[name])
    {
      if name in w.stores[n].manifests && w'.stores[n].manifests[name] == w.stores[n].manifests[name] {
        ManifestOkExtends(dir, w, w', w.stores[n].manifests[name]);
      }
    }
  }

  lemma OpsCarry(dir: Directory, w: World, w': World)
    requires OpsOk(dir, w) && Extends(w, w') && OpsChange(dir, w, w')
    ensures OpsOk(dir, w')
  {
    hide OpOk, Deletable;
    forall id | id in w'.ops
      ensures OpOk(dir, w', w'.ops[id])
    {
      if id in w.ops && w'.ops[id] == w.ops[id] {
        OpOkExtends(dir, w, w', w.ops[id]);
      }
    }
  }

  lemma NoticeOkExtends(dir: Directory, w: World, w': World, nt: Notice)
    requires Extends(w, w') && NoticeOk(dir, w, nt)
    ensures NoticeOk(dir, w', nt)
  {
  }

  lemma Carry(dir: Directory, w: World, w': World)
    requires Inv(dir, w) && Extends(w, w')
    requires forall g :: g in w'.groups && g !in w.groups ==> GroupOk(dir, w'.groups[g])
    requires RowsChange(dir, w, w') && ManifestsChange(dir, w, w') && OpsChange(dir, w, w') && NoticesChange(dir, w, w')
    requires SlotsHeld(w')
    ensures Inv(dir, w')
  {
    hide GroupOk, RowsOk, ManifestsOk, OpsOk, RowsChange, ManifestsChange, OpsChange, SlotsHeld, NoticeOk;
    RowsCarry(dir, w, w');
    ManifestsCarry(dir, w, w');
    OpsCarry(dir, w, w');
    forall nt | nt in w'.notices
      ensures NoticeOk(dir, w', nt)
    {
      if nt in w.notices {
        NoticeOkExtends(dir, w, w', nt);
      }
    }
  }

  // --- Steps that only touch the list of operations ---

  lemma SlotsStay(w: World, w': World)
    requires SlotsHeld(w) && Extends(w, w') && w'.live == w.live
    requires forall n :: n in w.stores ==> w.stores[n].fragments.Keys <= w'.stores[n].fragments.Keys
    ensures SlotsHeld(w')
  {
    forall s | s in w'.live
      ensures SlotHeld(w', s)
    {
      assert SlotHeld(w, s);
    }
  }

  lemma OpsOnlyChange(dir: Directory, w: World, w': World)
    requires OpsOk(dir, w) && w' == w.(ops := w'.ops)
    requires forall id :: id in w'.ops ==>
      (id in w.ops && w'.ops[id] == w.ops[id]) || (OpOk(dir, w, w'.ops[id]) && Deletable(w, w'.ops[id]))
    ensures Extends(w, w') && OpsChange(dir, w, w')
  {
    hide OpOk;
    forall id | id in w'.ops
      ensures (id in w.ops && w'.ops[id] == w.ops[id]) || OpOk(dir, w', w'.ops[id])
      ensures Deletable(w', w'.ops[id])
    {
      if id in w.ops && w'.ops[id] == w.ops[id] {
        assert Deletable(w, w.ops[id]);
      } else {
        OpOkExtends(dir, w, w', w'.ops[id]);
      }
    }
  }

  lemma OpsOnly(dir: Directory, w: World, w': World)
    requires Inv(dir, w) && w' == w.(ops := w'.ops)
    requires forall id :: id in w'.ops ==>
      (id in w.ops && w'.ops[id] == w.ops[id]) || (OpOk(dir, w, w'.ops[id]) && Deletable(w, w'.ops[id]))
    ensures Inv(dir, w')
  {
    hide OpOk, OpsOk, RowsOk, ManifestsOk, NoticeOk, GroupOk, SlotHeld, Deletable, RowOk, ManifestOk, OpsChange,
      Extends;
    OpsOnlyChange(dir, w, w');
    SlotsStay(w, w');
    Carry(dir, w, w');
  }

  lemma RotatedOk(dir: Directory, w: World, gid: GroupId, ms: seq<Member>, nt: Notice)
    requires MembersOk(dir, w, gid, ms) && NoticeOk(dir, w, nt) && nt.groupId == gid
    ensures MembersOk(dir, w, gid, Rotated(ms, nt.oldPid, nt.newPid, nt.newEndpoint))
  {
  }

  lemma TheRow(dir: Directory, w: World, n: NodeId, pid: Pid)
    requires Inv(dir, w) && n in w.stores && pid in w.stores[n].fragments
    ensures w.stores[n].fragments[pid].pid == pid && RowOk(dir, w, n, w.stores[n].fragments[pid])
  {
  }

  lemma TheManifest(dir: Directory, w: World, n: NodeId, name: Name)
    requires Inv(dir, w) && n in w.stores && name in w.stores[n].manifests
    ensures w.stores[n].manifests[name].secretName == name && ManifestOk(dir, w, w.stores[n].manifests[name])
  {
  }

  lemma TheOp(dir: Directory, w: World, id: nat)
    requires Inv(dir, w) && id in w.ops
    ensures OpOk(dir, w, w.ops[id]) && Deletable(w, w.ops[id])
  {
  }

  lemma BeginMutationKeeps(p: Primitives, dir: Directory, w: World, a: Action)
    requires Inv(dir, w) && Enabled(p, dir, w, a) && a.BeginMutation?
    ensures Inv(dir, Next(p, dir, w, a))
  {
    hide Inv, RowOk;
    TheRow(dir, w, a.n, a.pid);
    OpsOnly(dir, w, Next(p, dir, w, a));
  }

  lemma KnownNotice(dir: Directory, w: World, nt: Notice)
    requires Inv(dir, w) && nt in w.notices
    ensures NoticeOk(dir, w, nt)
  {
  }

  lemma RowParts(dir: Directory, w: World, n: NodeId, f: Fragment)
    requires RowOk(dir, w, n, f)
    ensures f.pid in w.slots && w.slots[f.pid].group == f.groupId && MembersOk(dir, w, f.groupId, f.members)
  {
  }

  lemma ReadRowsKeeps(p: Primitives, dir: Directory, w: World, a: Action)
    requires Inv(dir, w) && Enabled(p, dir, w, a) && a.ReadRows?
    ensures Inv(dir, Next(p, dir, w, a))
  {
    hide Inv, RowOk, MembersOk, NoticeOk, Rotated;
    var w' := Next(p, dir, w, a);
    KnownNotice(dir, w, a.nt);
    var updates := w'.ops[a.id].updates;
    forall q | q in updates
      ensures q in w.slots && w.slots[q].group == a.nt.groupId && MembersOk(dir, w, a.nt.groupId, updates[q])
      ensures q in w'.ops[a.id].lists && MembersOk(dir, w, a.nt.groupId, w'.ops[a.id].lists[q])
    {
      TheRow(dir, w, a.n, q);
      RowParts(dir, w, a.n, w.stores[a.n].fragments[q]);
      RotatedOk(dir, w, a.nt.groupId, w.stores[a.n].fragments[q].members, a.nt);
    }
    OpsOnly(dir, w, w');
  }

  lemma ReadManifestKeeps(p: Primitives, dir: Directory, w: World, a: Action)
    requires Inv(dir, w) && Enabled(p, dir, w, a) && a.ReadManifest?
    ensures Inv(dir, Next(p, dir, w, a))
  {
    hide Inv, MembersOk, NoticeOk, Rotated;
    TheManifest(dir, w, a.n, a.name);
    KnownNotice(dir, w, a.nt);
    RotatedOk(dir, w, a.nt.groupId, w.stores[a.n].manifests[a.name].members, a.nt);
    OpsOnly(dir, w, Next(p, dir, w, a));
  }

  lemma BeginCollectingKeeps(p: Primitives, dir: Directory, w: World, a: Action)
    requires Inv(dir, w) && Enabled(p, dir, w, a) && a.BeginCollecting?
    ensures Inv(dir, Next(p, dir, w, a))
  {
    hide Inv, MembersOk;
    TheManifest(dir, w, a.owner, a.name);
    OpsOnly(dir, w, Next(p, dir, w, a));
  }

  lemma AnsweringRow(dir: Directory, w: World, op: Op, n: NodeId, pid: Pid)
    requires Inv(dir, w) && op.Collecting? && ManifestOk(dir, w, op.manifest) && |op.fetched| < |op.manifest.members|
    requires n in w.stores && n in dir && AnswersFrom(dir, w, op, op.manifest.members[|op.fetched|], n, pid)
    ensures w.stores[n].fragments[pid].Open() == Some(ShareOf(w.groups[op.manifest.groupId], |op.fetched|))
  {
    hide ShareOf, RowsOk, ManifestsOk, OpsOk, SlotsHeld, NoticeOk;
    TheRow(dir, w, n, pid);
    var g := w.groups[op.manifest.groupId];
    assert GroupOk(dir, g);
    assert n == g.holders[|op.fetched|];
  }

  /** Whoever answers for a member answers with that member's share. */
  lemma AnswerIsShare(dir: Directory, w: World, op: Op, pid: Pid)
    requires Inv(dir, w) && op.Collecting? && ManifestOk(dir, w, op.manifest) && |op.fetched| < |op.manifest.members|
    requires CanAnswer(dir, w, op, pid)
    ensures Answer(dir, w, op, pid) == ShareOf(w.groups[op.manifest.groupId], |op.fetched|)
  {
    hide ShareOf, Inv, MembersOk;
    forall n | n in w.stores && n in dir && AnswersFrom(dir, w, op, op.manifest.members[|op.fetched|], n, pid)
      ensures w.stores[n].fragments[pid].Open() == Some(ShareOf(w.groups[op.manifest.groupId], |op.fetched|))
    {
      AnsweringRow(dir, w, op, n, pid);
    }
  }

  lemma ManifestParts(dir: Directory, w: World, m: Manifest)
    requires ManifestOk(dir, w, m)
    ensures m.groupId in w.groups && |m.members| == |w.groups[m.groupId].holders|
    ensures m.threshold == w.groups[m.groupId].threshold
  {
  }

  lemma NotAllAsked(m: Manifest, fetched: seq<Option<Bytes>>)
    requires !Collected(m, fetched)
    ensures |fetched| < |m.members|
  {
  }

  lemma FetchedOkNext(g: Group, fetched: seq<Option<Bytes>>, got: Option<Bytes>)
    requires FetchedOk(g, fetched) && |fetched| < |g.holders| && (got.Some? ==> got.value == ShareOf(g, |fetched|))
    ensures FetchedOk(g, fetched + [got])
  {
    hide ShareOf;
  }

  lemma FetchIs(p: Primitives, dir: Directory, w: World, a: Action)
    requires Enabled(p, dir, w, a) && a.Fetch?
    ensures a.id in w.ops && w.ops[a.id].Collecting? && !Collected(w.ops[a.id].manifest, w.ops[a.id].fetched)
    ensures |w.ops[a.id].fetched| < |w.ops[a.id].manifest.members|
    ensures var op := w.ops[a.id];
      && (a.answer.Some? ==> CanAnswer(dir, w, op, a.answer.value))
      && var got := if a.answer.None? then None else Some(Answer(dir, w, op, a.answer.value));
         Next(p, dir, w, a) == w.(ops := w.ops[a.id := op.(fetched := op.fetched + [got])])
  {
    hide Answer, CanAnswer, Collected;
    NotAllAsked(w.ops[a.id].manifest, w.ops[a.id].fetched);
  }

  lemma FetchKeeps(p: Primitives, dir: Directory, w: World, a: Action)
    requires Inv(dir, w) && Enabled(p, dir, w, a) && a.Fetch?
    ensures Inv(dir, Next(p, dir, w, a))
  {
    hide Inv, Enabled, Next, ManifestOk, ShareOf, Answer, CanAnswer, Collected, FetchedOk;
    FetchIs(p, dir, w, a);
    var op := w.ops[a.id];
    TheOp(dir, w, a.id);
    ManifestParts(dir, w, op.manifest);
    if a.answer.Some? {
      AnswerIsShare(dir, w, op, a.answer.value);
    }
    FetchedOkNext(w.groups[op.manifest.groupId], op.fetched,
                  if a.answer.None? then None else Some(Answer(dir, w, op, a.answer.value)));
    OpsOnly(dir, w, Next(p, dir, w, a));
  }

  lemma StopKeeps(p: Primitives, dir: Directory, w: World, a: Action)
    requires Inv(dir, w) && Enabled(p, dir, w, a) && a.Stop?
    ensures Inv(dir, Next(p, dir, w, a))
  {
    hide Inv;
    OpsOnly(dir, w, Next(p, dir, w, a));
  }

  // --- Steps that write to a store ---

  lemma RowWithMembers(dir: Directory, w: World, n: NodeId, f: Fragment, ms: seq<Member>)
    requires RowOk(dir, w, n, f) && MembersOk(dir, w, f.groupId, ms)
    ensures RowOk(dir, w, n, f.(members := ms))
  {
    hide MembersOk, ShareOf;
  }

  /** Replacing or adding one right row changes the tables rightly. */
  lemma RowReplaced(dir: Directory, w: World, w': World, n: NodeId, pid: Pid)
    requires w.stores.Keys == w'.stores.Keys && n in w'.stores && pid in w'.stores[n].fragments
    requires w'.stores[n].fragments[pid].pid == pid && RowOk(dir, w', n, w'.stores[n].fragments[pid])
    requires w'.stores
      == w.stores[n := w.stores[n].(fragments := w.stores[n].fragments[pid := w'.stores[n].fragments[pid]])]
    ensures RowsChange(dir, w, w') && ManifestsChange(dir, w, w')
  {
    hide RowOk, ManifestOk;
  }

  lemma StoreRow(dir: Directory, w: World, n: NodeId, f: Fragment)
    requires Inv(dir, w) && n in w.stores && RowOk(dir, w, n, f)
    ensures Inv(dir, WithStore(w, n, PutFragment(w.stores[n], f)))
  {
    hide RowOk, ManifestsOk, RowsOk, GroupOk, OpOk, NoticeOk;
    var w' := WithStore(w, n, PutFragment(w.stores[n], f));
    RowOkExtends(dir, w, w', n, f);
    SlotsStay(w, w');
    RowReplaced(dir, w, w', n, f.pid);
    Carry(dir, w, w');
  }

  lemma OpsOkIn(dir: Directory, w1: World, id: nat, pid: Pid, w: World, op: Op)
    requires op.Updating? && OpOk(dir, w, op) && pid in op.updates && w1 == w.(ops := w1.ops)
    ensures pid in w1.slots && w1.slots[pid].group == op.group && MembersOk(dir, w1, op.group, op.updates[pid])
  {
  }

  ghost function RowTicked(w: World, id: nat, pid: Pid): World
    requires id in w.ops && w.ops[id].Updating?
  {
    w.(ops := w.ops[id := w.ops[id].(updates := w.ops[id].updates - {pid})])
  }

  lemma WriteRowIs(p: Primitives, dir: Directory, w: World, a: Action)
    requires Enabled(p, dir, w, a) && a.WriteRow?
    ensures a.id in w.ops && w.ops[a.id].Updating? && a.pid in w.ops[a.id].updates && w.ops[a.id].node in w.stores
    ensures var op := w.ops[a.id];
      var s, w1 := w.stores[op.node], RowTicked(w, a.id, a.pid);
      && (a.pid !in s.fragments ==> Next(p, dir, w, a) == w1)
      && (a.pid in s.fragments && s.fragments[a.pid].pid == a.pid ==>
            Next(p, dir, w, a)
              == WithStore(w1, op.node, PutFragment(s, s.fragments[a.pid].(members := op.updates[a.pid]))))
  {
  }

  lemma TickedKeeps(dir: Directory, w: World, id: nat, pid: Pid)
    requires Inv(dir, w) && id in w.ops && w.ops[id].Updating? && pid in w.ops[id].updates
    ensures var w1 := RowTicked(w, id, pid);
      Inv(dir, w1) && w1.stores == w.stores && pid in w1.slots && w1.slots[pid].group == w.ops[id].group
      && MembersOk(dir, w1, w.ops[id].group, w.ops[id].updates[pid])
  {
    hide Inv, MembersOk;
    TheOp(dir, w, id);
    OpsOnly(dir, w, RowTicked(w, id, pid));
    OpsOkIn(dir, RowTicked(w, id, pid), id, pid, w, w.ops[id]);
  }

  lemma WriteRowKeeps(p: Primitives, dir: Directory, w: World, a: Action)
    requires Inv(dir, w) && Enabled(p, dir, w, a) && a.WriteRow?
    ensures Inv(dir, Next(p, dir, w, a))
  {
    hide Inv, Enabled, Next, MembersOk, RowOk, RowTicked, PutFragment, WithStore;
    WriteRowIs(p, dir, w, a);
    var op, w1 := w.ops[a.id], RowTicked(w, a.id, a.pid);
    TickedKeeps(dir, w, a.id, a.pid);
    if a.pid in w.stores[op.node].fragments {
      var f := w.stores[op.node].fragments[a.pid];
      TheRow(dir, w1, op.node, a.pid);
      RowParts(dir, w1, op.node, f);
      RowWithMembers(dir, w1, op.node, f, op.updates[a.pid]);
      StoreRow(dir, w1, op.node, f.(members := op.updates[a.pid]));
    }
  }

  lemma ManifestReplaced(dir: Directory, w: World, n: NodeId, m: Manifest)
    requires n in w.stores && ManifestOk(dir, WithStore(w, n, PutManifest(w.stores[n], m)), m)
    ensures var w' := WithStore(w, n, PutManifest(w.stores[n], m));
      RowsChange(dir, w, w') && ManifestsChange(dir, w, w')
  {
    hide MembersOk, RowOk, Complete;
  }

  lemma StoreManifest(dir: Directory, w: World, n: NodeId, m: Manifest)
    requires Inv(dir, w) && n in w.stores && ManifestOk(dir, w, m)
    ensures Inv(dir, WithStore(w, n, PutManifest(w.stores[n], m)))
  {
    hide RowOk, ManifestsOk, RowsOk, GroupOk, OpOk, NoticeOk, MembersOk;
    var w' := WithStore(w, n, PutManifest(w.stores[n], m));
    ManifestOkExtends(dir, w, w', m);
    ManifestReplaced(dir, w, n, m);
    SlotsStay(w, w');
    Carry(dir, w, w');
  }

  lemma AllDelivered(dir: Directory, w: World, op: Op)
    requires op.Sharing? && OpOk(dir, w, op) && op.next == |op.members|
    ensures op.group in w.groups && ManifestOk(dir, w, NewManifest(w.groups[op.group], op))
  {
  }

  lemma CommitKeeps(p: Primitives, dir: Directory, w: World, a: Action)
    requires Inv(dir, w) && Enabled(p, dir, w, a) && a.Commit?
    ensures Inv(dir, Next(p, dir, w, a))
  {
    hide Inv, MembersOk;
    TheOp(dir, w, a.id);
    var op := w.ops[a.id];
    var m := NewManifest(w.groups[op.group], op);
    AllDelivered(dir, w, op);
    StoreManifest(dir, w, op.owner, m);
    OpsOnly(dir, WithStore(w, op.owner, PutManifest(w.stores[op.owner], m)), Next(p, dir, w, a));
  }

  lemma WriteManifestKeeps(p: Primitives, dir: Directory, w: World, a: Action)
    requires Inv(dir, w) && Enabled(p, dir, w, a) && a.WriteManifest?
    ensures Inv(dir, Next(p, dir, w, a))
  {
    hide Inv, ManifestOk;
    TheOp(dir, w, a.id);
    var op := w.ops[a.id];
    StoreManifest(dir, w, op.node, op.manifest);
    OpsOnly(dir, WithStore(w, op.node, PutManifest(w.stores[op.node], op.manifest)), Next(p, dir, w, a));
  }

  lemma StartedShape(dir: Directory, w: World, id: nat, owner: NodeId, name: Name, kind: string, gid: GroupId,
                     g: Group, pids: seq<Pid>, reshare: bool)
    requires SharingEnabled(dir, w, kind, gid, g, pids)
    ensures var w' := Started(dir, w, id, owner, name, kind, gid, g, pids, reshare);
      && Extends(w, w') && w'.stores == w.stores && w'.live == w.live && w'.depths == w.depths
      && gid in w'.groups && w'.groups[gid] == g && GroupOk(dir, g) && kind != "" && |pids| == |g.holders|
      && (forall i :: 0 <= i < |pids| ==> pids[i] in w'.slots && w'.slots[pids[i]] == Slot(gid, i))
      && w'.ops == w.ops[id := Sharing(owner, name, kind, gid, MembersFor(dir, g.holders, pids), 0, reshare)]
  {
    hide GroupOk, MembersFor;
  }

  lemma NewMembersOk(dir: Directory, w: World, gid: GroupId, g: Group, pids: seq<Pid>)
    requires gid in w.groups && w.groups[gid] == g && GroupOk(dir, g) && |pids| == |g.holders|
    requires forall i :: 0 <= i < |pids| ==> pids[i] in w.slots && w.slots[pids[i]] == Slot(gid, i)
    ensures MembersOk(dir, w, gid, MembersFor(dir, g.holders, pids))
  {
  }

  lemma StartedOps(dir: Directory, w: World, id: nat, owner: NodeId, name: Name, kind: string, gid: GroupId,
                   g: Group, pids: seq<Pid>, reshare: bool)
    requires Inv(dir, w) && SharingEnabled(dir, w, kind, gid, g, pids) && owner in w.stores
    ensures var w' := Started(dir, w, id, owner, name, kind, gid, g, pids, reshare);
      Extends(w, w') && OpsChange(dir, w, w')
  {
    hide Inv, MembersOk, MembersFor, Started, SharingEnabled, GroupOk;
    var w' := Started(dir, w, id, owner, name, kind, gid, g, pids, reshare);
    StartedShape(dir, w, id, owner, name, kind, gid, g, pids, reshare);
    NewMembersOk(dir, w', gid, g, pids);
    assert OpOk(dir, w', w'.ops[id]);
    forall i | i in w'.ops
      ensures (i in w.ops && w'.ops[i] == w.ops[i]) || OpOk(dir, w', w'.ops[i])
      ensures Deletable(w', w'.ops[i])
    {
      if i != id {
        TheOp(dir, w, i);
      }
    }
  }

  lemma StartedKeeps(dir: Directory, w: World, id: nat, owner: NodeId, name: Name, kind: string, gid: GroupId,
                     g: Group, pids: seq<Pid>, reshare: bool)
    requires Inv(dir, w) && SharingEnabled(dir, w, kind, gid, g, pids) && owner in w.stores
    ensures Inv(dir, Started(dir, w, id, owner, name, kind, gid, g, pids, reshare))
  {
    hide RowOk, ManifestsOk, RowsOk, NoticeOk, ManifestOk, OpsOk, OpOk, GroupOk, MembersFor;
    var w' := Started(dir, w, id, owner, name, kind, gid, g, pids, reshare);
    StartedOps(dir, w, id, owner, name, kind, gid, g, pids, reshare);
    assert SlotsHeld(w') by { SlotsStay(w, w'); }
    Carry(dir, w, w');
  }

  lemma BeginSharingKeeps(p: Primitives, dir: Directory, w: World, a: Action)
    requires Inv(dir, w) && Enabled(p, dir, w, a) && (a.BeginSharing? || a.BeginResharing?)
    ensures Inv(dir, Next(p, dir, w, a))
  {
    hide Inv, SharingEnabled, CollectResult, Started;
    if a.BeginSharing? {
      StartedKeeps(dir, w, a.id, a.owner, a.name, a.kind, a.gid, a.g, a.pids, false);
    } else {
      TheOp(dir, w, a.id);
      StartedKeeps(dir, w, a.id, w.ops[a.id].owner, w.ops[a.id].manifest.secretName, a.kind, a.gid, a.g, a.pids, true);
    }
  }

  // --- Delivery ---

  lemma DeliveredRowOk(dir: Directory, w: World, op: Op, key: Bytes, nonce: Bytes, chainId: ChainId)
    requires op.Sharing? && MembersOk(dir, w, op.group, op.members) && op.next < |op.members|
    requires Slot(op.group, op.next) in w.live
    ensures RowOk(dir, w, op.members[op.next].nodeId, DeliveredRow(w.groups[op.group], op, key, nonce, chainId))
  {
    hide ShareOf;
  }

  lemma RedeemedExtends(w: World, slot: Slot, pid: Pid)
    ensures Extends(w, Redeemed(w, slot, pid)) && slot in Redeemed(w, slot, pid).live
    ensures Redeemed(w, slot, pid).stores == w.stores
  {
  }

  lemma DeliverStepIs(w: World, id: nat, op: Op, f: Fragment, replyLost: bool)
    requires op.Sharing? && op.next < |op.members| && op.members[op.next].nodeId in w.stores
    ensures var n := op.members[op.next].nodeId;
      DeliverStep(w, id, op, f, replyLost)
        == WithStore(Redeemed(w, Slot(op.group, op.next), f.pid), n, PutFragment(w.stores[n], f)).(
             ops := if replyLost then w.ops - {id} else w.ops[id := op.(next := op.next + 1)])
  {
    hide PutFragment;
  }

  lemma OneMoreDelivered(dir: Directory, w: World, w': World, op: Op)
    requires op.Sharing? && OpOk(dir, w, op) && Extends(w, w')
    requires op.next < |op.members| && Slot(op.group, op.next) in w'.live
    ensures OpOk(dir, w', op.(next := op.next + 1)) && Deletable(w', op.(next := op.next + 1))
  {
    hide MembersOk;
    MembersOkExtends(dir, w, w', op.group, op.members);
  }

  lemma DeliveredPid(dir: Directory, w: World, op: Op, key: Bytes, nonce: Bytes, chainId: ChainId)
    requires op.Sharing? && MembersOk(dir, w, op.group, op.members) && op.next < |op.members|
    ensures var f := DeliveredRow(w.groups[op.group], op, key, nonce, chainId);
      && f.pid in w.slots && w.slots[f.pid] == Slot(op.group, op.next) && f.groupId == op.group
      && op.next < |w.groups[op.group].holders| && w.groups[op.group].holders[op.next] == op.members[op.next].nodeId
  {
  }

  lemma TheSlot(dir: Directory, w: World, s: Slot)
    requires Inv(dir, w) && s in w.live
    ensures SlotHeld(w, s)
  {
  }

  lemma RedeemedShape(w: World, slot: Slot, n: NodeId, f: Fragment)
    requires n in w.stores
    ensures var w1, w' := Redeemed(w, slot, f.pid), WithStore(Redeemed(w, slot, f.pid), n, PutFragment(w.stores[n], f));
      && Extends(w, w') && Extends(w1, w') && w1 == w.(live := w1.live)
      && w'.notices == w.notices && w'.groups == w.groups
      && w1.stores == w.stores && w'.stores == w.stores[n := PutFragment(w.stores[n], f)] && w'.ops == w.ops
      && slot in w'.live && forall s :: s in w'.live ==> s == slot || s in w.live
  {
    hide PutFragment;
  }

  lemma RedeemedDeletable(w: World, slot: Slot, n: NodeId, f: Fragment, op: Op)
    requires n in w.stores && Deletable(w, op)
    ensures Deletable(WithStore(Redeemed(w, slot, f.pid), n, PutFragment(w.stores[n], f)), op)
  {
  }

  lemma RedeemedHeld(w: World, slot: Slot, n: NodeId, f: Fragment, s: Slot)
    requires n in w.stores && f.pid in w.slots && w.slots[f.pid] == slot
    requires slot.group in w.groups && slot.index < |w.groups[slot.group].holders|
    requires w.groups[slot.group].holders[slot.index] == n
    requires s == slot || s in w.live
    requires s in w.live ==> SlotHeld(w, s)
    ensures SlotHeld(WithStore(Redeemed(w, slot, f.pid), n, PutFragment(w.stores[n], f)), s)
  {
  }

  lemma PutLiveParts(dir: Directory, w: World, slot: Slot, n: NodeId, f: Fragment)
    requires Inv(dir, w) && n in w.stores && f.pid in w.slots && w.slots[f.pid] == slot
    requires slot.group in w.groups && slot.index < |w.groups[slot.group].holders|
    requires w.groups[slot.group].holders[slot.index] == n
    ensures var w1, w' := Redeemed(w, slot, f.pid), WithStore(Redeemed(w, slot, f.pid), n, PutFragment(w.stores[n], f));
      && Extends(w, w') && Extends(w1, w') && SlotsHeld(w') && OpsChange(dir, w, w')
      && w1 == w.(live := w1.live) && w'.notices == w.notices && w'.groups == w.groups && w1.stores == w.stores
      && w'.stores == w.stores[n := PutFragment(w.stores[n], f)]
  {
    hide Inv, OpOk, SlotHeld, Deletable, Extends, Redeemed, PutFragment;
    RedeemedShape(w, slot, n, f);
    var w' := WithStore(Redeemed(w, slot, f.pid), n, PutFragment(w.stores[n], f));
    forall s | s in w'.live
      ensures SlotHeld(w', s)
    {
      if s in w.live {
        TheSlot(dir, w, s);
      }
      RedeemedHeld(w, slot, n, f, s);
    }
    forall id | id in w'.ops
      ensures Deletable(w', w'.ops[id])
    {
      TheOp(dir, w, id);
      RedeemedDeletable(w, slot, n, f, w.ops[id]);
    }
  }

  /** Storing a slot's row and, the first time, marking the slot delivered. */
  lemma PutLive(dir: Directory, w: World, slot: Slot, n: NodeId, f: Fragment)
    requires Inv(dir, w) && n in w.stores && f.pid in w.slots && w.slots[f.pid] == slot
    requires slot.group in w.groups && slot.index < |w.groups[slot.group].holders|
    requires w.groups[slot.group].holders[slot.index] == n
    requires RowOk(dir, Redeemed(w, slot, f.pid), n, f)
    ensures Inv(dir, WithStore(Redeemed(w, slot, f.pid), n, PutFragment(w.stores[n], f)))
  {
    hide RowOk, ManifestsOk, RowsOk, GroupOk, OpOk, NoticeOk, ManifestOk, SlotHeld, Deletable, Redeemed;
    var w1 := Redeemed(w, slot, f.pid);
    var w' := WithStore(w1, n, PutFragment(w.stores[n], f));
    PutLiveParts(dir, w, slot, n, f);
    RowOkExtends(dir, w1, w', n, f);
    RowReplaced(dir, w, w', n, f.pid);
    Carry(dir, w, w');
  }

  lemma DeliverStepKeeps(dir: Directory, w: World, id: nat, key: Bytes, nonce: Bytes, chainId: ChainId, replyLost: bool)
    requires Inv(dir, w) && id in w.ops && w.ops[id].Sharing? && w.ops[id].next < |w.ops[id].members|
    requires w.ops[id].group in w.groups && w.ops[id].members[w.ops[id].next].nodeId in w.stores
    ensures Inv(dir, DeliverStep(w, id, w.ops[id],
                                 DeliveredRow(w.groups[w.ops[id].group], w.ops[id], key, nonce, chainId), replyLost))
  {
    hide Inv, DeliveredRow, RowOk, MembersOk, DeliverStep, Redeemed, PutFragment, Extends;
    TheOp(dir, w, id);
    var op := w.ops[id];
    var slot := Slot(op.group, op.next);
    var n := op.members[op.next].nodeId;
    var f := DeliveredRow(w.groups[op.group], op, key, nonce, chainId);
    var w1 := Redeemed(w, slot, f.pid);
    var w2 := WithStore(w1, n, PutFragment(w.stores[n], f));
    DeliveredPid(dir, w, op, key, nonce, chainId);
    RedeemedShape(w, slot, n, f);
    RedeemedExtends(w, slot, f.pid);
    MembersOkExtends(dir, w, w1, op.group, op.members);
    DeliveredRowOk(dir, w1, op, key, nonce, chainId);
    PutLive(dir, w, slot, n, f);
    var w' := DeliverStep(w, id, op, f, replyLost);
    OneMoreDelivered(dir, w, w2, op);
    DeliverStepIs(w, id, op, f, replyLost);
    OpsOnly(dir, w2, w');
  }

  lemma DeliverKeeps(p: Primitives, dir: Directory, w: World, a: Action)
    requires Inv(dir, w) && Enabled(p, dir, w, a) && a.Deliver?
    ensures Inv(dir, Next(p, dir, w, a))
  {
    hide Inv, MembersOk, DeliverStep, DeliveredRow;
    if a.outcome.Failed? {
      OpsOnly(dir, w, Next(p, dir, w, a));
    } else {
      TheOp(dir, w, a.id);
      DeliverStepKeeps(dir, w, a.id, a.key, a.nonce, a.chainId, a.outcome.ReplyLost?);
    }
  }

  // --- Mutation ---

  lemma TargetOk(dir: Directory, w: World, w': World, op: Op)
    requires op.Mutating? && OpOk(dir, w, op) && Extends(w, w')
    requires op.target.pid in w'.slots && op.row.pid in w.slots && w'.slots[op.target.pid] == w.slots[op.row.pid]
    ensures RowOk(dir, w', op.node, op.target)
  {
    hide MembersOk, ShareOf;
    MembersOkExtends(dir, w, w', op.row.groupId, op.row.members);
  }

  lemma PutStepExtends(w: World, id: nat)
    requires id in w.ops && w.ops[id].Mutating? && w.ops[id].row.pid in w.slots
    requires w.ops[id].node in w.stores && RotationUsable(w, w.ops[id].row, w.ops[id].target.pid)
    ensures Extends(w, PutStep(w, id, w.ops[id]))
  {
  }

  lemma StoredOpOk(dir: Directory, w: World, w': World, op: Op)
    requires op.Mutating? && OpOk(dir, w, op) && Extends(w, w')
    requires op.target.pid in w'.slots && op.row.pid in w.slots && w'.slots[op.target.pid] == w.slots[op.row.pid]
    requires Depth(w', op.target.pid) == Depth(w, op.row.pid) + 1
    ensures OpOk(dir, w', op.(stored := true))
  {
    hide RowOk;
    RowOkExtends(dir, w, w', op.node, op.row);
  }

  lemma PutStepShape(w: World, id: nat)
    requires id in w.ops && w.ops[id].Mutating? && w.ops[id].row.pid in w.slots
    requires w.ops[id].node in w.stores && RotationUsable(w, w.ops[id].row, w.ops[id].target.pid)
    ensures var w' := PutStep(w, id, w.ops[id]);
      && w'.ops == w.ops[id := w.ops[id].(stored := true)]
      && (forall pid :: pid in w.slots ==>
            pid in w'.slots && w'.slots[pid] == w.slots[pid] && Depth(w', pid) == Depth(w, pid))
      && (forall s :: s in w.live ==> s in w'.live)
  {
  }

  /** The furthest row of a share only ever moves further on. */
  lemma LiveDeepens(dir: Directory, w: World, id: nat, s: Slot)
    requires Inv(dir, w) && id in w.ops && w.ops[id].Mutating? && w.ops[id].row.pid in w.slots && s in w.live
    requires w.ops[id].node in w.stores && RotationUsable(w, w.ops[id].row, w.ops[id].target.pid)
    ensures var w' := PutStep(w, id, w.ops[id]);
      && s in w'.live && Depth(w, w.live[s]) <= Depth(w', w'.live[s])
      && (s == w.slots[w.ops[id].row.pid] ==> Depth(w, w.ops[id].row.pid) < Depth(w', w'.live[s]))
  {
    hide RowsOk, ManifestsOk, GroupOk, NoticeOk, OpsOk;
    assert SlotHeld(w, s);
  }

  /** A put may store a row that a pending deletion is aimed at, but never the furthest one. */
  lemma PutStepDeletable(dir: Directory, w: World, id: nat)
    requires Inv(dir, w) && id in w.ops && w.ops[id].Mutating? && !w.ops[id].stored
    requires w.ops[id].node in w.stores && w.ops[id].row.pid in w.slots
    requires RotationUsable(w, w.ops[id].row, w.ops[id].target.pid)
    ensures forall i :: i in PutStep(w, id, w.ops[id]).ops ==>
      Deletable(PutStep(w, id, w.ops[id]), PutStep(w, id, w.ops[id]).ops[i])
  {
    hide Inv, MembersOk, ShareOf, RowOk, RotationUsable, Extends, PutStep;
    var w' := PutStep(w, id, w.ops[id]);
    PutStepShape(w, id);
    forall i | i in w'.ops
      ensures Deletable(w', w'.ops[i])
    {
      TheOp(dir, w, i);
      if w.ops[i].Mutating? {
        RowSlot(dir, w, w.ops[i].node, w.ops[i].row);
        LiveDeepens(dir, w, id, w.slots[w.ops[i].row.pid]);
      }
    }
  }

  lemma PutStepHolds(dir: Directory, w: World, id: nat)
    requires Inv(dir, w) && id in w.ops && w.ops[id].Mutating? && OpOk(dir, w, w.ops[id])
    requires w.ops[id].node in w.stores && w.ops[id].row.pid in w.slots
    requires RotationUsable(w, w.ops[id].row, w.ops[id].target.pid)
    ensures SlotsHeld(PutStep(w, id, w.ops[id]))
  {
    hide RowsOk, ManifestsOk, GroupOk, NoticeOk, ManifestOk, MembersOk, ShareOf, OpsOk;
    var w' := PutStep(w, id, w.ops[id]);
    forall s | s in w'.live
      ensures SlotHeld(w', s)
    {
      if s != w.slots[w.ops[id].row.pid] {
        assert SlotHeld(w, s);
      }
    }
  }

  lemma PutStepKeeps(dir: Directory, w: World, id: nat)
    requires Inv(dir, w) && id in w.ops && w.ops[id].Mutating? && !w.ops[id].stored
    requires w.ops[id].node in w.stores && w.ops[id].row.pid in w.slots
    requires RotationUsable(w, w.ops[id].row, w.ops[id].target.pid)
    ensures Inv(dir, PutStep(w, id, w.ops[id]))
  {
    hide RowsOk, ManifestsOk, GroupOk, NoticeOk, ManifestOk, RowOk, OpOk;
    var op := w.ops[id];
    var w' := PutStep(w, id, op);
    TheOp(dir, w, id);
    PutStepExtends(w, id);
    TargetOk(dir, w, w', op);
    RowReplaced(dir, w, w', op.node, op.target.pid);
    StoredOpOk(dir, w, w', op);
    PutStepDeletable(dir, w, id);
    PutStepHolds(dir, w, id);
    Carry(dir, w, w');
  }

  lemma PutNewRowKeeps(p: Primitives, dir: Directory, w: World, a: Action)
    requires Inv(dir, w) && Enabled(p, dir, w, a) && a.PutNewRow?
    ensures Inv(dir, Next(p, dir, w, a))
  {
    hide RowsOk, ManifestsOk, GroupOk, NoticeOk, ManifestOk, RowOk, OpOk;
    TheOp(dir, w, a.id);
    PutStepKeeps(dir, w, a.id);
  }

  lemma DeleteStepShape(dir: Directory, w: World, id: nat)
    requires id in w.ops && w.ops[id].Mutating? && w.ops[id].node in w.stores && w.ops[id].node in dir
    ensures var w' := DeleteStep(dir, w, id, w.ops[id]);
      && Extends(w, w') && RowsChange(dir, w, w') && ManifestsChange(dir, w, w') && w'.groups == w.groups
      && w'.live == w.live && w'.slots == w.slots && w'.depths == w.depths && w'.ops == w.ops - {id}
  {
    hide RowOk, ManifestOk;
  }

  /** The furthest row of a share is not the one deleted. */
  lemma DeleteStepHolds(dir: Directory, w: World, id: nat, s: Slot)
    requires id in w.ops && w.ops[id].Mutating? && w.ops[id].stored && Deletable(w, w.ops[id])
    requires w.ops[id].node in w.stores && w.ops[id].node in dir && SlotHeld(w, s)
    ensures SlotHeld(DeleteStep(dir, w, id, w.ops[id]), s)
  {
  }

  lemma DeleteStepParts(dir: Directory, w: World, id: nat)
    requires Inv(dir, w) && id in w.ops && w.ops[id].Mutating? && w.ops[id].stored
    requires w.ops[id].node in w.stores && w.ops[id].node in dir
    ensures var w' := DeleteStep(dir, w, id, w.ops[id]);
      && Extends(w, w') && RowsChange(dir, w, w') && ManifestsChange(dir, w, w') && OpsChange(dir, w, w')
      && SlotsHeld(w') && w'.groups == w.groups
  {
    hide Inv, OpOk, DeleteStep, Extends, SlotHeld, RowsChange, ManifestsChange;
    var w' := DeleteStep(dir, w, id, w.ops[id]);
    DeleteStepShape(dir, w, id);
    TheOp(dir, w, id);
    forall s | s in w'.live
      ensures SlotHeld(w', s)
    {
      TheSlot(dir, w, s);
      DeleteStepHolds(dir, w, id, s);
    }
    forall i | i in w'.ops
      ensures Deletable(w', w'.ops[i])
    {
      TheOp(dir, w, i);
    }
  }

  lemma NewNoticeOk(dir: Directory, w: World, id: nat)
    requires Inv(dir, w) && id in w.ops && w.ops[id].Mutating? && w.ops[id].stored
    requires w.ops[id].node in w.stores && w.ops[id].node in dir
    ensures var w' := DeleteStep(dir, w, id, w.ops[id]);
      forall nt :: nt in w'.notices ==> nt in w.notices || NoticeOk(dir, w', nt)
  {
    hide RowsOk, ManifestsOk, GroupOk, ManifestOk, SlotsHeld, MembersOk, ShareOf;
    TheOp(dir, w, id);
  }

  lemma DeleteOldRowKeeps(p: Primitives, dir: Directory, w: World, a: Action)
    requires Inv(dir, w) && Enabled(p, dir, w, a) && a.DeleteOldRow?
    ensures Inv(dir, Next(p, dir, w, a))
  {
    hide RowsOk, ManifestsOk, GroupOk, ManifestOk, OpOk, NoticeOk, SlotHeld, DeleteStep;
    var op := w.ops[a.id];
    var w' := Next(p, dir, w, a);
    DeleteStepParts(dir, w, a.id);
    NewNoticeOk(dir, w, a.id);
    Carry(dir, w, w');
  }

  // --- All steps ---

  /** The invariant holds after every step. */
  lemma NextKeepsInv(p: Primitives, dir: Directory, w: World, a: Action)
    requires Inv(dir, w) && Enabled(p, dir, w, a)
    ensures Inv(dir, Next(p, dir, w, a))
  {
    hide Inv, Enabled, Next;
    match a {
      case BeginSharing(_, _, _, _, _, _, _) => BeginSharingKeeps(p, dir, w, a);
      case BeginResharing(_, _, _, _, _) => BeginSharingKeeps(p, dir, w, a);
      case Deliver(_, _, _, _, _) => DeliverKeeps(p, dir, w, a);
      case Commit(_) => CommitKeeps(p, dir, w, a);
      case BeginMutation(_, _, _, _) => BeginMutationKeeps(p, dir, w, a);
      case PutNewRow(_) => PutNewRowKeeps(p, dir, w, a);
      case DeleteOldRow(_) => DeleteOldRowKeeps(p, dir, w, a);
      case ReadRows(_, _, _) => ReadRowsKeeps(p, dir, w, a);
      case WriteRow(_, _) => WriteRowKeeps(p, dir, w, a);
      case ReadManifest(_, _, _, _) => ReadManifestKeeps(p, dir, w, a);
      case WriteManifest(_) => WriteManifestKeeps(p, dir, w, a);
      case BeginCollecting(_, _, _, _) => BeginCollectingKeeps(p, dir, w, a);
      case Fetch(_, _) => FetchKeeps(p, dir, w, a);
      case Stop(_) => StopKeeps(p, dir, w, a);
    }
  }
}
