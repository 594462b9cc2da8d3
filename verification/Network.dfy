/** All nodes' databases and the requests that reach them, with the protocol run so far: every
    request is one step of the custody protocol. */
module Network {
  import opened Wrappers
  import opened Ids
  import opened Shamir
  import opened GfTables
  import opened Store
  import opened Ratchet
  import opened Mutation
  import opened Custody
  import opened CustodyRuns
  import opened RunBuilding
  import opened Wiping
  import opened Orchestrator

  method NewStores(nodes: set<NodeId>) returns (stores: map<NodeId, Store>)
    ensures stores.Keys == nodes
    ensures forall a :: a in stores ==> fresh(stores[a]) && stores[a].State() == EMPTY_STORE
    ensures forall a, b :: a in stores && b in stores && stores[a] == stores[b] ==> a == b
  {
    stores := map[];
    var todo := nodes;
    while todo != {}
      invariant todo <= nodes && stores.Keys == nodes - todo
      invariant forall a :: a in stores ==> fresh(stores[a]) && stores[a].State() == EMPTY_STORE
      invariant forall a, b :: a in stores && b in stores && stores[a] == stores[b] ==> a == b
      decreases |todo|
    {
      var n :| n in todo;
      var store := new Store();
      stores := stores[n := store];
      todo := todo - {n};
    }
  }

  lemma InitRun(p: Primitives, dir: Directory)
    requires forall a, b :: a in dir && b in dir && dir[a] == dir[b] ==> a == b
    ensures IsRun(p, dir, [Init(dir)], []) && Init(dir).stores == map n | n in dir :: EMPTY_STORE
  {
  }

  /** What a delivery does to the databases. */
  lemma DeliverStores(p: Primitives, dir: Directory, w: World, id: nat, f: Fragment, outcome: Outcome)
    requires Enabled(p, dir, w, Deliver(id, f.key, f.ciphertext.nonce, f.chainId, outcome))
    requires f == DeliveredRow(w.groups[w.ops[id].group], w.ops[id], f.key, f.ciphertext.nonce, f.chainId)
    ensures var n := w.ops[id].members[w.ops[id].next].nodeId;
      && n in w.stores
      && Next(p, dir, w, Deliver(id, f.key, f.ciphertext.nonce, f.chainId, outcome)).stores
           == if outcome.Failed? then w.stores else w.stores[n := PutFragment(w.stores[n], f)]
  {
    hide DeliveredRow, PutFragment;
  }

  /** What a commit does to the databases. */
  lemma CommitStores(p: Primitives, dir: Directory, w: World, id: nat)
    requires Enabled(p, dir, w, Commit(id))
    ensures var op := w.ops[id];
      && op.owner in w.stores
      && Next(p, dir, w, Commit(id)).stores
           == w.stores[op.owner := PutManifest(w.stores[op.owner], NewManifest(w.groups[op.group], op))]
  {
    hide PutManifest, NewManifest;
  }

  lemma InvStores(dir: Directory, w: World)
    requires Inv(dir, w)
    ensures w.stores.Keys == dir.Keys
  {
  }

  ghost predicate NamesGroup(s: StoreState, gid: GroupId) {
    exists name :: name in s.manifests && s.manifests[name].groupId == gid
  }

  lemma RowsNameNothing(s: StoreState, nt: Notice)
    ensures NamesGroup(UpdateSibling(s, nt.groupId, nt.oldPid, nt.newPid, nt.newEndpoint), nt.groupId)
      == NamesGroup(s, nt.groupId)
  {
  }

  /** The notice folded into one manifest of its group, when there is one. */
  ghost predicate ManifestFolded(s: StoreState, s': StoreState, nt: Notice) {
    if !NamesGroup(s, nt.groupId)
    then s' == s
    else exists name ::
      && name in s.manifests && s.manifests[name].groupId == nt.groupId
      && s' == PutManifest(s, RotateManifest(s.manifests[name], nt.oldPid, nt.newPid, nt.newEndpoint))
  }

  /** The notice folded into both tables: each row of its group has the entries rotated, and so has
      one manifest of the group, when there is one; all else stays. */
  ghost predicate NoticeFolded(s: StoreState, s': StoreState, nt: Notice) {
    && s'.fragments.Keys == s.fragments.Keys
    && (forall p :: p in s.fragments ==>
          && s'.fragments[p] == s.fragments[p].(members := s'.fragments[p].members)
          && (s.fragments[p].groupId != nt.groupId ==> s'.fragments[p] == s.fragments[p])
          && (s.fragments[p].groupId == nt.groupId ==>
                EntriesRotated(s.fragments[p].members, s'.fragments[p].members, nt.oldPid, nt.newPid, nt.newEndpoint)))
    && if forall name :: name in s.manifests ==> s.manifests[name].groupId != nt.groupId
       then s'.manifests == s.manifests
       else exists name, ms ::
         && name in s.manifests && s.manifests[name].groupId == nt.groupId
         && EntriesRotated(s.manifests[name].members, ms, nt.oldPid, nt.newPid, nt.newEndpoint)
         && s'.manifests
              == s.manifests[s.manifests[name].secretName := Normalized(s.manifests[name].(members := ms))]
  }

  lemma BothFolded(s: StoreState, s': StoreState, nt: Notice)
    requires ManifestFolded(UpdateSibling(s, nt.groupId, nt.oldPid, nt.newPid, nt.newEndpoint), s', nt)
    ensures NoticeFolded(s, s', nt)
  {
    hide EntriesRotated;
    var rows := UpdateSibling(s, nt.groupId, nt.oldPid, nt.newPid, nt.newEndpoint);
    SiblingEntries(s, nt.groupId, nt.oldPid, nt.newPid, nt.newEndpoint);
    if NamesGroup(rows, nt.groupId) {
      var name :| name in s.manifests && s.manifests[name].groupId == nt.groupId
        && s' == PutManifest(rows, RotateManifest(s.manifests[name], nt.oldPid, nt.newPid, nt.newEndpoint));
      RotatedEntries(s.manifests[name].members, nt.oldPid, nt.newPid, nt.newEndpoint);
    }
  }

  class Network {
    const p: Primitives
    const dir: Directory
    const t: GfTables.Tables
    const stores: map<NodeId, Store>
    ghost var states: seq<World>
    ghost var actions: seq<Action>

    ghost predicate Distinct() {
      forall a, b :: a in stores && b in stores && stores[a] == stores[b] ==> a == b
    }

    ghost function Tables(): map<NodeId, StoreState>
      reads stores.Values
    {
      map n | n in stores :: stores[n].State()
    }

    ghost function Now(): World
      reads this
      requires |states| == |actions| + 1
    {
      states[|actions|]
    }

    /** The databases are what the run so far has made of them. */
    ghost predicate Valid()
      reads this, stores.Values, t.expTable, t.logTable
      ensures Valid() ==> |states| == |actions| + 1 && t.Valid() && Tables() == Now().stores
    {
      && t.Valid() && Distinct()
      && IsRun(p, dir, states, actions) && |states| == |actions| + 1 && Tables() == states[|actions|].stores
    }

    /** Empty databases everywhere. */
    constructor (p: Primitives, dir: Directory)
      requires forall a, b :: a in dir && b in dir && dir[a] == dir[b] ==> a == b
      ensures Valid() && this.p == p && this.dir == dir && actions == []
    {
      hide IsRun, Init;
      var t := new GfTables.Tables();
      var stores := NewStores(dir.Keys);
      this.p, this.dir, this.t, this.stores := p, dir, t, stores;
      this.states, this.actions := [Init(dir)], [];
      InitRun(p, dir);
    }

    lemma NowInv()
      requires Valid()
      ensures Inv(dir, Now()) && stores.Keys == dir.Keys == Now().stores.Keys
    {
      hide IsRun;
      RunInv(p, dir, states, actions, |actions|);
      InvStores(dir, Now());
    }

    /** The protocol step that the databases have just taken. */
    ghost method Take(a: Action)
      requires t.Valid() && Distinct() && IsRun(p, dir, states, actions) && |states| == |actions| + 1
      requires Enabled(p, dir, Now(), a) && Next(p, dir, Now(), a).stores == Tables()
      modifies this
      ensures Valid() && actions == old(actions) + [a] && old(states) <= states
      ensures Now() == Next(p, dir, old(Now()), a)
    {
      hide IsRun, Enabled, Next;
      RunSnoc(p, dir, states, actions, a);
      states, actions := states + [Next(p, dir, Now(), a)], actions + [a];
    }

    /** The same for a step that leaves the databases alone. */
    ghost method TakeQuietly(a: Action)
      requires Valid() && Enabled(p, dir, Now(), a) && Next(p, dir, Now(), a).stores == Now().stores
      modifies this
      ensures Valid() && actions == old(actions) + [a] && old(states) <= states
      ensures Now() == Next(p, dir, old(Now()), a)
    {
      hide IsRun, Enabled, Next;
      Take(a);
    }

    method Resolve(endpoint: Endpoint) returns (n: Option<NodeId>)
      ensures n.None? ==> forall k :: k in dir ==> dir[k] != endpoint
      ensures n.Some? ==> n.value in dir && dir[n.value] == endpoint
    {
      var todo := dir.Keys;
      while todo != {}
        invariant todo <= dir.Keys && forall k :: k in dir.Keys - todo ==> dir[k] != endpoint
        decreases |todo|
      {
        var k :| k in todo;
        if dir[k] == endpoint {
          return Some(k);
        }
        todo := todo - {k};
      }
      n := None;
    }

    /** A holder takes custody of its share, unless the request never arrives. */
    method TakeCustody(n: NodeId, f: Fragment, outcome: Outcome, ghost id: nat)
      requires Valid() && id in Now().ops
      requires Enabled(p, dir, Now(), Deliver(id, f.key, f.ciphertext.nonce, f.chainId, outcome))
      requires var op := Now().ops[id];
        && op.members[op.next].nodeId == n
        && f == DeliveredRow(Now().groups[op.group], op, f.key, f.ciphertext.nonce, f.chainId)
      modifies this, stores.Values
      ensures Valid() && old(states) <= states && old(actions) <= actions
      ensures Now() == Next(p, dir, old(Now()), Deliver(id, f.key, f.ciphertext.nonce, f.chainId, outcome))
      ensures n in stores && stores[n].manifests == old(stores[n].manifests)
      ensures stores[n].fragments
        == if outcome.Failed? then old(stores[n].fragments) else old(stores[n].fragments)[f.pid := f]
      ensures forall k :: k in stores && k != n ==> stores[k].State() == old(stores[k].State())
    {
      hide IsRun, PutFragment, Enabled, Next, DeliveredRow;
      DeliverStores(p, dir, Now(), id, f, outcome);
      if !outcome.Failed? {
        stores[n].PutFragmentRow(f);
      }
      Take(Deliver(id, f.key, f.ciphertext.nonce, f.chainId, outcome));
    }

    /** The owner's database takes the manifest of a sharing whose shares are all delivered. */
    method CommitManifest(n: NodeId, m: Manifest, ghost id: nat)
      requires Valid() && id in Now().ops && Enabled(p, dir, Now(), Commit(id))
      requires n == Now().ops[id].owner && m == NewManifest(Now().groups[Now().ops[id].group], Now().ops[id])
      modifies this, stores.Values
      ensures Valid() && old(states) <= states && old(actions) <= actions
      ensures Now() == Next(p, dir, old(Now()), Commit(id))
      ensures n in stores && stores[n].fragments == old(stores[n].fragments)
      ensures stores[n].manifests
        == old(stores[n].manifests)[m.secretName := if m.kind == "" then m.(kind := "secret") else m]
      ensures forall k :: k in stores && k != n ==> stores[k].State() == old(stores[k].State())
    {
      hide IsRun, PutManifest, Enabled, Next, NewManifest;
      CommitStores(p, dir, Now(), id);
      stores[n].PutManifestRow(m);
      Take(Commit(id));
    }

    /** A node's whole mutation of one of its rows, as the three statements it consists of. */
    method ApplyMutation(node: Node, pid: Pid, d: Drive, cold: bool) returns (sent: Option<Outbox>)
      requires Valid() && node.nodeId in stores && stores[node.nodeId] == node.store
      requires node.nodeId in dir && dir[node.nodeId] == node.endpoint
      requires pid in node.store.fragments && Mutated(p, node.store.fragments[pid], d).Some? ==>
        RotationUsable(Now(), node.store.fragments[pid], Mutated(p, node.store.fragments[pid], d).value.pid)
      modifies this, stores.Values
      ensures Valid() && old(states) <= states && old(actions) <= actions && Now().ops == old(Now()).ops
      ensures Now().stores == old(Now()).stores[node.nodeId := MutateStore(p, old(node.store.State()), pid, d)]
      ensures sent.Some? <==> pid in old(node.store.fragments) && Mutated(p, old(node.store.fragments)[pid], d).Some?
      ensures sent.None? ==> actions == old(actions)
      ensures sent.Some? ==> IsMutation(actions[|old(actions)|..], node.nodeId, pid, d)
      ensures sent.Some? ==>
        var f := old(node.store.fragments)[pid];
        var g := Mutated(p, f, d).value;
        var nt := Notice(f.groupId, f.groupToken, pid, g.pid, node.endpoint, g.epoch);
        && sent.value.ack == Ack(node.nodeId, pid, g.pid, g.epoch, cold, f.chainId, if cold then d.seed else [])
        && sent.value.notices == Notices(node.nodeId, f.members, nt) && nt in Now().notices
    {
      hide IsRun, Mutated, Mutable, RotationUsable, PutFragment, DeleteFragment, Notices, Depth, IsMutation;
      ghost var r, n := Run(states, actions), node.nodeId;
      assert Tables()[n] == Now().stores[n] == node.store.State();
      sent := node.ApplyMutation(p, pid, d, cold);
      if sent.Some? {
        ghost var r' := MutateRow(p, dir, r, n, pid, d);
        states, actions := r'.states, r'.actions;
      }
    }

    method FoldRows(n: NodeId, nt: Notice)
      requires Valid() && n in stores && nt in Now().notices
      modifies this, stores.Values
      ensures Valid() && old(states) <= states && old(actions) <= actions
      ensures Now().ops == old(Now()).ops && nt in Now().notices
      ensures IsRowsHandler(actions[|old(actions)|..], n, nt)
      ensures Now().stores
        == old(Now()).stores[n := UpdateSibling(old(Now()).stores[n], nt.groupId, nt.oldPid, nt.newPid, nt.newEndpoint)]
    {
      hide IsRun, UpdateSibling, IsRowsHandler;
      ghost var r := Run(states, actions);
      assert Tables()[n] == Now().stores[n];
      stores[n].UpdateSiblingRows(nt.groupId, nt.oldPid, nt.newPid, nt.newEndpoint);
      ghost var r' := FoldIntoRows(p, dir, r, n, nt);
      states, actions := r'.states, r'.actions;
    }

    method FoldManifest(n: NodeId, nt: Notice)
      requires Valid() && n in stores && nt in Now().notices
      modifies this, stores.Values
      ensures Valid() && old(states) <= states && old(actions) <= actions && Now().ops == old(Now()).ops
      ensures Now().stores == old(Now()).stores[n := Now().stores[n]]
      ensures ManifestFolded(old(Now()).stores[n], Now().stores[n], nt)
      ensures if NamesGroup(old(Now()).stores[n], nt.groupId)
              then IsManifestHandler(actions[|old(actions)|..], n, nt) else actions[|old(actions)|..] == []
    {
      hide IsRun, PutManifest, RotateManifest, IsManifestHandler, EntriesRotated, Normalized;
      ghost var r, s := Run(states, actions), Now().stores[n];
      assert Tables()[n] == s;
      var found := stores[n].UpdateManifestMember(nt.groupId, nt.oldPid, nt.newPid, nt.newEndpoint);
      if found {
        ghost var name :| name in s.manifests && s.manifests[name].groupId == nt.groupId
          && stores[n].State()
               == PutManifest(s, RotateManifest(s.manifests[name], nt.oldPid, nt.newPid, nt.newEndpoint));
        ghost var r' := FoldIntoManifest(p, dir, r, n, name, nt);
        states, actions := r'.states, r'.actions;
      }
    }

    /** The mutation-notice handler: every row of the group, then one manifest of the group, if any. */
    method HandleNotice(n: NodeId, nt: Notice)
      requires Valid() && n in stores && nt in Now().notices
      modifies this, stores.Values
      ensures Valid() && old(states) <= states && old(actions) <= actions && Now().ops == old(Now()).ops
      ensures Now().stores == old(Now()).stores[n := Now().stores[n]]
      ensures ManifestFolded(UpdateSibling(old(Now()).stores[n], nt.groupId, nt.oldPid, nt.newPid, nt.newEndpoint),
                             Now().stores[n], nt)
      ensures IsHandler(actions[|old(actions)|..], n, nt, NamesGroup(old(Now()).stores[n], nt.groupId))
      ensures NoticeFolded(old(stores[n].State()), stores[n].State(), nt)
    {
      hide IsRun, Valid, UpdateSibling, ManifestFolded, IsRowsHandler, IsManifestHandler, IsHandler, NamesGroup,
        NoticeFolded;
      ghost var before, listed, s := actions, NamesGroup(Now().stores[n], nt.groupId), Now().stores[n];
      assert Tables()[n] == s;
      RowsNameNothing(Now().stores[n], nt);
      FoldRows(n, nt);
      ghost var between := actions;
      FoldManifest(n, nt);
      RowsThenManifest(between[|before|..], actions[|between|..], n, nt, listed);
      assert actions[|before|..] == between[|before|..] + actions[|between|..];
      assert Tables()[n] == Now().stores[n];
      BothFolded(s, Now().stores[n], nt);
    }

    ghost predicate HasRow(n: NodeId, f: Fragment)
      reads stores.Values
    {
      n in stores && f in stores[n].fragments.Values
    }

    ghost predicate NoRow(n: NodeId, group: GroupId)
      reads stores.Values
    {
      n in stores ==> forall f :: f in stores[n].fragments.Values ==> f.groupId != group
    }

    /** A node's own share of a group: any one of its rows for the group, if it opens. */
    method OwnShare(n: NodeId, group: GroupId) returns (r: Option<Bytes>, ghost row: Option<Fragment>)
      requires n in stores
      ensures row.None? ==> NoRow(n, group) && r == None
      ensures row.Some? ==> HasRow(n, row.value) && row.value.groupId == group && r == row.value.Open()
    {
      var f := stores[n].GetFragmentByGroup(group);
      row := f;
      if f.None? {
        return None, None;
      }
      r := Decrypt(f.value.key, f.value.ciphertext, Aad(f.value.groupId, f.value.pid));
    }

    /** The share behind an endpoint; the group's token must match the row's. */
    method FetchGroupShare(endpoint: Endpoint, group: GroupId, token: string)
      returns (r: Option<Bytes>, ghost n: Option<NodeId>, ghost row: Option<Fragment>)
      requires dir.Keys == stores.Keys
      ensures n.None? ==> r == None && forall k :: k in dir ==> dir[k] != endpoint
      ensures n.Some? ==> n.value in dir && dir[n.value] == endpoint
      ensures n.Some? && row.None? ==> NoRow(n.value, group) && r == None
      ensures n.Some? && row.Some? ==>
        && HasRow(n.value, row.value) && row.value.groupId == group
        && r == if row.value.groupToken == token then row.value.Open() else None
    {
      row := None;
      var node := Resolve(endpoint);
      n := node;
      if node.None? {
        return None, None, None;
      }
      var f := stores[node.value].GetFragmentByGroup(group);
      row := f;
      if f.None? || f.value.groupToken != token {
        return None, n, row;
      }
      var aead := Decrypt(f.value.key, f.value.ciphertext, Aad(f.value.groupId, f.value.pid));
      if aead.None? {
        return None, n, row;
      }
      var share := Buffer(aead.value);
      r := Some(share[..]);
      Wipe(share);
    }

    /** Whether the node behind an endpoint still holds a share of the group. */
    method CheckPresence(endpoint: Endpoint, group: GroupId, token: string)
      returns (present: bool, ghost n: Option<NodeId>, ghost row: Option<Fragment>)
      requires dir.Keys == stores.Keys
      ensures n.None? ==> !present && forall k :: k in dir ==> dir[k] != endpoint
      ensures n.Some? ==> n.value in dir && dir[n.value] == endpoint
      ensures n.Some? && row.None? ==> NoRow(n.value, group) && !present
      ensures n.Some? && row.Some? ==>
        HasRow(n.value, row.value) && row.value.groupId == group && (present <==> row.value.groupToken == token)
    {
      row := None;
      var node := Resolve(endpoint);
      n := node;
      if node.None? {
        return false, None, None;
      }
      var f := stores[node.value].GetFragmentByGroup(group);
      row := f;
      present := f.Some? && f.value.groupToken == token;
    }
  }
}
