/** A node's local database: fragments and manifests as tables keyed by PID and by secret name.
    Authenticated encryption is ideal: a sealed value opens exactly under its own key and its own
    associated data. */
module Store {
  import opened Wrappers
  import opened Ids
  import opened Shamir

  datatype Sealed = Sealed(key: Bytes, aad: string, nonce: Bytes, plaintext: Bytes)

  function Encrypt(key: Bytes, plaintext: Bytes, aad: string, nonce: Bytes): Sealed {
    Sealed(key, aad, nonce, plaintext)
  }

  function Decrypt(key: Bytes, c: Sealed, aad: string): Option<Bytes> {
    if c.key == key && c.aad == aad then Some(c.plaintext) else None
  }

  /** What binds a ciphertext to its group and pseudonym. */
  function Aad(group: GroupId, pid: Pid): string {
    group + ":" + pid
  }

  lemma ColonAt(group: GroupId, pid: Pid)
    requires ':' !in group
    ensures Aad(group, pid)[|group|] == ':' && forall i :: 0 <= i < |group| ==> Aad(group, pid)[i] != ':'
    ensures group == Aad(group, pid)[..|group|] && pid == Aad(group, pid)[|group| + 1..]
  {
  }

  /** Group ids without a colon, as hexadecimal ones are: different groups or pseudonyms give
      different associated data. */
  lemma AadSeparates(group: GroupId, pid: Pid, group': GroupId, pid': Pid)
    requires ':' !in group && ':' !in group'
    ensures Aad(group, pid) == Aad(group', pid') <==> group == group' && pid == pid'
  {
    ColonAt(group, pid);
    ColonAt(group', pid');
    if Aad(group, pid) == Aad(group', pid') {
      assert |group| == |group'|;
    }
  }

  /** In general they need not. */
  lemma AadCanCoincide()
    ensures Aad("a:b", "c") == Aad("a", "b:c")
  {
    assert Aad("a:b", "c") == "a:b:c" == Aad("a", "b:c");
  }

  /** A sealed share opens under the key it was sealed with, as the same fragment of the same group,
      and under nothing else. */
  lemma OpensOnlyAsSealed(key: Bytes, plaintext: Bytes, group: GroupId, pid: Pid, nonce: Bytes,
                          key': Bytes, group': GroupId, pid': Pid)
    requires ':' !in group && ':' !in group'
    ensures Decrypt(key', Encrypt(key, plaintext, Aad(group, pid), nonce), Aad(group', pid'))
      == if key' == key && group' == group && pid' == pid then Some(plaintext) else None
  {
    AadSeparates(group, pid, group', pid');
  }

  datatype Member = Member(pid: Pid, nodeId: NodeId, endpoint: Endpoint)

  datatype Fragment = Fragment(
    pid: Pid, groupId: GroupId, groupToken: string, chainId: ChainId, epoch: nat,
    threshold: int, total: int, key: Bytes, ciphertext: Sealed, members: seq<Member>)
  {
    /** The share inside, if the row's own key and identity open it. */
    function Open(): Option<Bytes> {
      Decrypt(key, ciphertext, Aad(groupId, pid))
    }
  }

  datatype Manifest = Manifest(
    secretName: Name, kind: string, groupId: GroupId, groupToken: string,
    threshold: int, total: int, members: seq<Member>)

  datatype StoreState = StoreState(fragments: map<Pid, Fragment>, manifests: map<Name, Manifest>)

  const EMPTY_STORE := StoreState(map[], map[])

  // --- What each statement does to the tables ---

  function PutFragment(s: StoreState, f: Fragment): StoreState {
    s.(fragments := s.fragments[f.pid := f])
  }

  function DeleteFragment(s: StoreState, pid: Pid): StoreState {
    s.(fragments := s.fragments - {pid})
  }

  /** The member list with one pseudonym rotated. */
  function Rotated(ms: seq<Member>, oldPid: Pid, newPid: Pid, endpoint: Endpoint): (r: seq<Member>)
    ensures |r| == |ms|
  {
    seq(|ms|, i requires 0 <= i < |ms| =>
      if ms[i].pid == oldPid then ms[i].(pid := newPid, endpoint := endpoint) else ms[i])
  }

  function UpdateSibling(s: StoreState, group: GroupId, oldPid: Pid, newPid: Pid, endpoint: Endpoint): StoreState {
    s.(fragments := map p | p in s.fragments ::
      if s.fragments[p].groupId == group
      then s.fragments[p].(members := Rotated(s.fragments[p].members, oldPid, newPid, endpoint))
      else s.fragments[p])
  }

  function Normalized(m: Manifest): Manifest {
    if m.kind == "" then m.(kind := "secret") else m
  }

  function PutManifest(s: StoreState, m: Manifest): StoreState {
    s.(manifests := s.manifests[m.secretName := Normalized(m)])
  }

  function RotateManifest(m: Manifest, oldPid: Pid, newPid: Pid, endpoint: Endpoint): Manifest {
    m.(members := Rotated(m.members, oldPid, newPid, endpoint))
  }

  /** In ms' each entry with the old pseudonym has the new one and the endpoint; the others, the
      order and the node ids stay. */
  ghost predicate EntriesRotated(ms: seq<Member>, ms': seq<Member>, oldPid: Pid, newPid: Pid, endpoint: Endpoint) {
    && |ms'| == |ms|
    && forall i :: 0 <= i < |ms| ==>
         ms'[i] == if ms[i].pid == oldPid then Member(newPid, ms[i].nodeId, endpoint) else ms[i]
  }

  lemma RotatedEntries(ms: seq<Member>, oldPid: Pid, newPid: Pid, endpoint: Endpoint)
    ensures EntriesRotated(ms, Rotated(ms, oldPid, newPid, endpoint), oldPid, newPid, endpoint)
  {
  }

  lemma SiblingEntries(s: StoreState, group: GroupId, oldPid: Pid, newPid: Pid, endpoint: Endpoint)
    ensures var after := UpdateSibling(s, group, oldPid, newPid, endpoint);
      && after.manifests == s.manifests && after.fragments.Keys == s.fragments.Keys
      && forall p :: p in s.fragments ==>
           && after.fragments[p] == s.fragments[p].(members := after.fragments[p].members)
           && (s.fragments[p].groupId != group ==> after.fragments[p] == s.fragments[p])
           && (s.fragments[p].groupId == group ==>
                 EntriesRotated(s.fragments[p].members, after.fragments[p].members, oldPid, newPid, endpoint))
  {
  }

  /** The loop over a member list. */
  method RewriteMembers(ms: seq<Member>, oldPid: Pid, newPid: Pid, endpoint: Endpoint)
    returns (r: seq<Member>, changed: bool)
    ensures r == Rotated(ms, oldPid, newPid, endpoint)
    ensures |r| == |ms| && forall i :: 0 <= i < |ms| ==>
      r[i] == if ms[i].pid == oldPid then Member(newPid, ms[i].nodeId, endpoint) else ms[i]
    ensures !changed ==> r == ms
  {
    r, changed := ms, false;
    for i := 0 to |ms|
      invariant |r| == |ms|
      invariant forall k :: 0 <= k < i ==> r[k] == Rotated(ms, oldPid, newPid, endpoint)[k]
      invariant forall k :: i <= k < |ms| ==> r[k] == ms[k]
      invariant !changed ==> r == ms
    {
      if r[i].pid == oldPid {
        r := r[i := r[i].(pid := newPid, endpoint := endpoint)];
        changed := true;
      }
    }
  }

  class Store {
    var fragments: map<Pid, Fragment>
    var manifests: map<Name, Manifest>

    function State(): StoreState
      reads this
    {
      StoreState(fragments, manifests)
    }

    constructor ()
      ensures State() == EMPTY_STORE
    {
      fragments, manifests := map[], map[];
    }

    method PutFragmentRow(f: Fragment)
      modifies this
      ensures State() == PutFragment(old(State()), f)
      ensures fragments == old(fragments)[f.pid := f] && manifests == old(manifests)
    {
      fragments := fragments[f.pid := f];
    }

    method GetFragment(pid: Pid) returns (f: Option<Fragment>)
      ensures f.None? <==> pid !in fragments
      ensures f.Some? ==> f.value == fragments[pid]
    {
      f := if pid in fragments then Some(fragments[pid]) else None;
    }

    /** Any one row of the group: the query takes the first it meets. */
    method GetFragmentByGroup(group: GroupId) returns (f: Option<Fragment>)
      ensures f.None? <==> forall p :: p in fragments ==> fragments[p].groupId != group
      ensures f.Some? ==> f.value in fragments.Values && f.value.groupId == group
    {
      var todo := fragments.Keys;
      while todo != {}
        invariant todo <= fragments.Keys
        invariant forall p :: p in fragments.Keys - todo ==> fragments[p].groupId != group
        decreases |todo|
      {
        var p :| p in todo;
        if fragments[p].groupId == group {
          return Some(fragments[p]);
        }
        todo := todo - {p};
      }
      f := None;
    }

    method DeleteFragmentRow(pid: Pid)
      modifies this
      ensures State() == DeleteFragment(old(State()), pid)
      ensures fragments == old(fragments) - {pid} && manifests == old(manifests)
    {
      fragments := fragments - {pid};
    }

    /** Reads every row of the group and collects the member lists that change. */
    method CollectUpdates(group: GroupId, oldPid: Pid, newPid: Pid, endpoint: Endpoint)
      returns (updates: map<Pid, seq<Member>>)
      ensures updates.Keys <= fragments.Keys
      ensures forall p :: p in updates ==>
        fragments[p].groupId == group && updates[p] == Rotated(fragments[p].members, oldPid, newPid, endpoint)
      ensures forall p :: p in fragments && fragments[p].groupId == group && p !in updates ==>
        Rotated(fragments[p].members, oldPid, newPid, endpoint) == fragments[p].members
    {
      hide Rotated;
      updates := map[];
      var todo := fragments.Keys;
      while todo != {}
        invariant todo <= fragments.Keys && updates.Keys <= fragments.Keys - todo
        invariant forall p :: p in updates ==>
          fragments[p].groupId == group && updates[p] == Rotated(fragments[p].members, oldPid, newPid, endpoint)
        invariant forall p :: p in fragments && p !in todo && fragments[p].groupId == group && p !in updates ==>
          Rotated(fragments[p].members, oldPid, newPid, endpoint) == fragments[p].members
        decreases |todo|
      {
        var p :| p in todo;
        if fragments[p].groupId == group {
          var members, changed := RewriteMembers(fragments[p].members, oldPid, newPid, endpoint);
          if changed {
            updates := updates[p := members];
          }
        }
        todo := todo - {p};
      }
    }

    /** Writes the collected member lists back, row by row. */
    method WriteUpdates(updates: map<Pid, seq<Member>>)
      requires updates.Keys <= fragments.Keys
      modifies this
      ensures manifests == old(manifests) && fragments.Keys == old(fragments).Keys
      ensures forall p :: p in fragments ==>
        fragments[p] == if p in updates then old(fragments)[p].(members := updates[p]) else old(fragments)[p]
    {
      var left := updates.Keys;
      while left != {}
        invariant left <= updates.Keys && manifests == old(manifests) && fragments.Keys == old(fragments).Keys
        invariant forall p :: p in fragments ==>
          fragments[p] == if p in updates.Keys - left then old(fragments)[p].(members := updates[p])
                          else old(fragments)[p]
        decreases |left|
      {
        var p :| p in left;
        fragments := fragments[p := fragments[p].(members := updates[p])];
        left := left - {p};
      }
    }

    /** Folds a peer's rotation into every row of its group. */
    method UpdateSiblingRows(group: GroupId, oldPid: Pid, newPid: Pid, endpoint: Endpoint)
      modifies this
      ensures State() == UpdateSibling(old(State()), group, oldPid, newPid, endpoint)
      ensures manifests == old(manifests) && fragments.Keys == old(fragments).Keys
      ensures forall p :: p in fragments ==>
        && fragments[p] == old(fragments)[p].(members := fragments[p].members)
        && (fragments[p].groupId != group ==> fragments[p] == old(fragments)[p])
        && (fragments[p].groupId == group ==>
              EntriesRotated(old(fragments)[p].members, fragments[p].members, oldPid, newPid, endpoint))
    {
      hide Rotated, EntriesRotated;
      var updates := CollectUpdates(group, oldPid, newPid, endpoint);
      WriteUpdates(updates);
      assert fragments == UpdateSibling(old(State()), group, oldPid, newPid, endpoint).fragments;
      SiblingEntries(old(State()), group, oldPid, newPid, endpoint);
    }

    method PutManifestRow(m: Manifest)
      modifies this
      ensures State() == PutManifest(old(State()), m)
      ensures manifests == old(manifests)[m.secretName := if m.kind == "" then m.(kind := "secret") else m]
      ensures fragments == old(fragments)
    {
      var row := m;
      if row.kind == "" {
        row := row.(kind := "secret");
      }
      manifests := manifests[row.secretName := row];
    }

    method GetManifest(name: Name) returns (m: Option<Manifest>)
      ensures m.None? <==> name !in manifests
      ensures m.Some? ==> m.value == manifests[name]
    {
      m := if name in manifests then Some(manifests[name]) else None;
    }

    /** Every manifest of a kind, once each. */
    method ListManifestsByKind(kind: string) returns (ms: seq<Manifest>)
      requires forall name :: name in manifests ==> manifests[name].secretName == name
      ensures forall m :: m in ms <==> m.secretName in manifests && manifests[m.secretName] == m && m.kind == kind
      ensures forall i, j :: 0 <= i < j < |ms| ==> ms[i].secretName != ms[j].secretName
    {
      ms := [];
      var todo := manifests.Keys;
      while todo != {}
        invariant todo <= manifests.Keys
        invariant forall m :: m in ms <==>
          m.secretName in manifests.Keys - todo && manifests[m.secretName] == m && m.kind == kind
        invariant forall i, j :: 0 <= i < j < |ms| ==> ms[i].secretName != ms[j].secretName
        decreases |todo|
      {
        var name :| name in todo;
        if manifests[name].kind == kind {
          ms := ms + [manifests[name]];
        }
        todo := todo - {name};
      }
    }

    method GetManifestByGroup(group: GroupId) returns (m: Option<Manifest>)
      ensures m.None? <==> forall n :: n in manifests ==> manifests[n].groupId != group
      ensures m.Some? ==> m.value in manifests.Values && m.value.groupId == group
    {
      var todo := manifests.Keys;
      while todo != {}
        invariant todo <= manifests.Keys
        invariant forall n :: n in manifests.Keys - todo ==> manifests[n].groupId != group
        decreases |todo|
      {
        var n :| n in todo;
        if manifests[n].groupId == group {
          return Some(manifests[n]);
        }
        todo := todo - {n};
      }
      m := None;
    }

    /** Reads the manifest of the group, rotates one member and writes it back. */
    method UpdateManifestMember(group: GroupId, oldPid: Pid, newPid: Pid, endpoint: Endpoint) returns (found: bool)
      modifies this
      ensures found <==> exists n :: n in old(manifests) && old(manifests)[n].groupId == group
      ensures !found ==> State() == old(State())
      ensures found ==> exists n ::
        && n in old(manifests) && old(manifests)[n].groupId == group
        && State() == PutManifest(old(State()), RotateManifest(old(manifests)[n], oldPid, newPid, endpoint))
      ensures fragments == old(fragments)
      ensures found ==> exists n, ms' ::
        && n in old(manifests) && old(manifests)[n].groupId == group
        && EntriesRotated(old(manifests)[n].members, ms', oldPid, newPid, endpoint)
        && manifests == old(manifests)[old(manifests)[n].secretName := Normalized(old(manifests)[n].(members := ms'))]
    {
      var m := GetManifestByGroup(group);
      if m.None? {
        return false;
      }
      var members, changed := RewriteMembers(m.value.members, oldPid, newPid, endpoint);
      assert m.value.(members := members) == RotateManifest(m.value, oldPid, newPid, endpoint);
      PutManifestRow(m.value.(members := members));
      found := true;
    }
  }
}
