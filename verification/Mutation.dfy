/** Mutating a held fragment: a new key, a new pseudonym, the same share. */
module Mutation {
  import opened Wrappers
  import opened Picking
  import opened Ids
  import opened Shamir
  import opened HashChain
  import opened Store
  import opened Ratchet
  import opened Orchestrator
  import opened Wiping

  /** What drives one mutation: a seed (scheduled or a chain link), local entropy and a nonce. */
  datatype Drive = Drive(seed: Bytes, entropy: Bytes, nonce: Bytes)

  /** The row a mutation stores, or None when the ratchet refuses or the row does not open. */
  function Mutated(p: Primitives, f: Fragment, d: Drive): Option<Fragment> {
    match Advance(p, f.key, d.seed, d.entropy)
    case None => None
    case Some(newKey) =>
      match f.Open()
      case None => None
      case Some(plaintext) =>
        var newPid := NextPseudoID(p, f.pid, d.seed);
        Some(f.(pid := newPid, epoch := NextEpoch(f.epoch), key := newKey,
                ciphertext := Encrypt(newKey, plaintext, Aad(f.groupId, newPid), d.nonce)))
  }

  /** A row can be mutated when no input of the ratchet is empty and its own key and identity open
      its ciphertext. */
  predicate Mutable(f: Fragment, d: Drive) {
    && |f.key| > 0 && |d.seed| > 0 && |d.entropy| > 0
    && f.ciphertext.key == f.key && f.ciphertext.aad == f.groupId + ":" + f.pid
  }

  lemma MutatedIffMutable(p: Primitives, f: Fragment, d: Drive)
    ensures Mutated(p, f, d).Some? <==> Mutable(f, d)
  {
  }

  /** The whole mutation on the local tables: put the new row, then delete the old one. */
  function MutateStore(p: Primitives, s: StoreState, pid: Pid, d: Drive): StoreState {
    if pid !in s.fragments then s
    else match Mutated(p, s.fragments[pid], d)
      case None => s
      case Some(f) => DeleteFragment(PutFragment(s, f), pid)
  }

  datatype Notice = Notice(groupId: GroupId, groupToken: string, oldPid: Pid,
                           newPid: Pid, newEndpoint: Endpoint, epoch: nat)

  /** What a finished mutation sends: one ack, and one notice per sibling. */
  datatype Outbox = Outbox(ack: Message, notices: seq<(Endpoint, Notice)>)

  /** The notices go to every listed member but this node, in list order. */
  function Notices(self: NodeId, ms: seq<Member>, n: Notice): seq<(Endpoint, Notice)> {
    if ms == [] then []
    else (if ms[0].nodeId == self then [] else [(ms[0].endpoint, n)]) + Notices(self, ms[1..], n)
  }

  lemma {:induction false} NoticesSnoc(self: NodeId, ms: seq<Member>, last: Member, n: Notice)
    ensures Notices(self, ms + [last], n)
      == Notices(self, ms, n) + if last.nodeId == self then [] else [(last.endpoint, n)]
  {
    if ms == [] {
      assert [last][1..] == [];
    } else {
      assert (ms + [last])[1..] == ms[1..] + [last];
      NoticesSnoc(self, ms[1..], last, n);
    }
  }

  lemma NoNotices(self: NodeId, n: Notice)
    ensures Notices(self, [], n) == []
  {
  }

  /** Every listed member but the node itself gets one notice, in list order. */
  lemma {:induction false} NoticesExactly(self: NodeId, ms: seq<Member>, n: Notice) returns (places: seq<nat>)
    ensures Ascending(places) && forall i :: i in places <==> 0 <= i < |ms| && ms[i].nodeId != self
    ensures |Notices(self, ms, n)| == |places|
    ensures forall k :: 0 <= k < |places| ==>
      places[k] in places && Notices(self, ms, n)[k] == (ms[places[k]].endpoint, n)
    decreases |ms|
  {
    hide Notices;
    places := [];
    if ms == [] {
      NoNotices(self, n);
    } else {
      var before, last := ms[..|ms| - 1], |ms| - 1;
      places := NoticesExactly(self, before, n);
      assert ms == before + [ms[last]];
      NoticesSnoc(self, before, ms[last], n);
      if ms[last].nodeId != self {
        places := places + [last];
      }
    }
  }

  const COLD_CHAIN_LENGTH := 64

  class Node {
    const nodeId: NodeId
    const endpoint: Endpoint
    const store: Store
    var chains: map<ChainId, ColdChain>
    constructor (nodeId: NodeId, endpoint: Endpoint, store: Store)
      ensures this.nodeId == nodeId && this.endpoint == endpoint && this.store == store && chains == map[]
    {
      this.nodeId, this.endpoint, this.store, this.chains := nodeId, endpoint, store, map[];
    }

    /** Provisions a fragment's chain and says what to announce; None models a failing random
        source. The node starts one link below the announced tip. */
    method RegisterNewFragment(sha: Hash, pid: Pid, chainId: ChainId, tip: Option<Bytes>)
      returns (announce: Option<Message>)
      modifies this`chains
      ensures announce.None? <==> tip.None?
      ensures announce.None? ==> chains == old(chains)
      ensures announce.Some? ==>
        chainId in chains && fresh(chains[chainId]) && chains == old(chains)[chainId := chains[chainId]]
      ensures announce.Some? ==>
        var c := chains[chainId];
        && c.Valid() && |c.chain| == 65 && IsChain(sha, c.chain) && c.next == 63 == Start(c.chain).next
        && c.chain[64] == tip.value == Start(c.chain).anchor
        && announce.value == Announce(nodeId, pid, endpoint, chainId, c.chain[64])
    {
      var chain := BuildChain(sha, COLD_CHAIN_LENGTH, tip);
      if chain.None? {
        return None;
      }
      var cc := new ColdChain(chain.value[..], COLD_CHAIN_LENGTH - 1);
      chains := chains[chainId := cc];
      announce := Some(Announce(nodeId, pid, endpoint, chainId, chain.value[COLD_CHAIN_LENGTH]));
    }

    /** The deliver handler: the row is stored once its chain stands, so that it can be mutated
        offline from the start. */
    method TakeDelivery(sha: Hash, row: Fragment, tip: Option<Bytes>) returns (announce: Option<Message>)
      modifies this`chains, store
      ensures announce.None? <==> tip.None?
      ensures announce.None? ==> chains == old(chains) && store.State() == old(store.State())
      ensures announce.Some? ==>
        && store.State() == PutFragment(old(store.State()), row)
        && row.chainId in chains && fresh(chains[row.chainId])
        && chains == old(chains)[row.chainId := chains[row.chainId]]
      ensures announce.Some? ==>
        var c := chains[row.chainId];
        && c.Valid() && |c.chain| == 65 && IsChain(sha, c.chain) && c.next == 63
        && announce.value == Announce(nodeId, row.pid, endpoint, row.chainId, c.chain[64])
    {
      announce := RegisterNewFragment(sha, row.pid, row.chainId, tip);
      if announce.Some? {
        store.PutFragmentRow(row);
      }
    }

    method NotifySiblings(frag: Fragment, oldPid: Pid, newPid: Pid) returns (sent: seq<(Endpoint, Notice)>)
      ensures sent == Notices(nodeId, frag.members,
                              Notice(frag.groupId, frag.groupToken, oldPid, newPid, endpoint, NextEpoch(frag.epoch)))
    {
      var n := Notice(frag.groupId, frag.groupToken, oldPid, newPid, endpoint, NextEpoch(frag.epoch));
      sent := [];
      for i := 0 to |frag.members|
        invariant sent + Notices(nodeId, frag.members[i..], n) == Notices(nodeId, frag.members, n)
      {
        var m := frag.members[i];
        assert frag.members[i..][0] == m && frag.members[i..][1..] == frag.members[i + 1..];
        if m.nodeId != nodeId {
          sent := sent + [(m.endpoint, n)];
        }
      }
    }

    /** Scheduled and cold mutations alike; nothing is sent unless both table writes happened. */
    method ApplyMutation(p: Primitives, pid: Pid, d: Drive, cold: bool) returns (sent: Option<Outbox>)
      modifies store
      ensures store.State() == MutateStore(p, old(store.State()), pid, d)
      ensures sent.Some? <==> pid in old(store.fragments) && Mutated(p, old(store.fragments)[pid], d).Some?
      ensures sent.Some? <==> pid in old(store.fragments) && Mutable(old(store.fragments)[pid], d)
      ensures store.manifests == old(store.manifests) && (sent.None? ==> store.fragments == old(store.fragments))
      ensures sent.Some? ==>
        var f := old(store.fragments)[pid];
        var newPid := p.mac(d.seed, f.pid);
        var newKey := p.hkdf(d.seed + d.entropy, f.key, "mutant-db/ratchet-step");
        var g := Fragment(newPid, f.groupId, f.groupToken, f.chainId, (f.epoch + 1) % 0x1_0000_0000_0000_0000,
                          f.threshold, f.total, newKey,
                          Sealed(newKey, f.groupId + ":" + newPid, d.nonce, f.ciphertext.plaintext), f.members);
        store.fragments == old(store.fragments)[newPid := g] - {pid}
      ensures sent.Some? ==>
        var f := old(store.fragments)[pid];
        var g := Mutated(p, f, d).value;
        && sent.value.ack == Ack(nodeId, pid, g.pid, g.epoch, cold, f.chainId, if cold then d.seed else [])
        && sent.value.notices
             == Notices(nodeId, f.members, Notice(f.groupId, f.groupToken, pid, g.pid, endpoint, g.epoch))
    {
      var row := store.GetFragment(pid);
      if row.None? {
        return None;
      }
      var frag := row.value;
      var key := Buffer(frag.key);
      var localEntropy := Buffer(d.entropy);
      var newKey := Advance(p, key[..], d.seed, localEntropy[..]);
      if newKey.None? {
        return None;
      }
      Wipe(localEntropy);
      var aead := Decrypt(key[..], frag.ciphertext, Aad(frag.groupId, frag.pid));
      if aead.None? {
        return None;
      }
      var plaintext := Buffer(aead.value);
      var newPid := NextPseudoID(p, frag.pid, d.seed);
      var newCiphertext := Encrypt(newKey.value, plaintext[..], Aad(frag.groupId, newPid), d.nonce);
      Wipe(plaintext);
      Wipe(key);
      var newEpoch := NextEpoch(frag.epoch);
      store.PutFragmentRow(Fragment(newPid, frag.groupId, frag.groupToken, frag.chainId, newEpoch,
                                    frag.threshold, frag.total, newKey.value, newCiphertext, frag.members));
      store.DeleteFragmentRow(pid);
      var ack := Ack(nodeId, pid, newPid, newEpoch, cold, frag.chainId, if cold then d.seed else []);
      var notices := NotifySiblings(frag, pid, newPid);
      sent := Some(Outbox(ack, notices));
    }

    /** Consumes the next link of the fragment's chain and mutates with it. */
    method ColdMutate(p: Primitives, pid: Pid, entropy: Bytes, nonce: Bytes) returns (sent: Option<Outbox>)
      requires forall c :: c in chains.Values ==> c.Valid()
      modifies store, chains.Values
      ensures forall c :: c in chains.Values ==> c.Valid()
      ensures pid !in old(store.fragments) || old(store.fragments)[pid].chainId !in chains ==>
        && sent == None && store.State() == old(store.State())
        && forall c :: c in chains.Values ==> c.next == old(c.next)
      ensures pid in old(store.fragments) && old(store.fragments)[pid].chainId in chains ==>
        var c := chains[old(store.fragments)[pid].chainId];
        && (forall other :: other in chains.Values && other != c ==> other.next == old(other.next))
        && (old(c.next) < 0 ==> sent == None && store.State() == old(store.State()) && c.next == old(c.next))
        && (0 <= old(c.next) < |c.chain| ==>
              && c.next == old(c.next) - 1
              && store.State() == MutateStore(p, old(store.State()), pid, Drive(c.chain[old(c.next)], entropy, nonce)))
      ensures pid in old(store.fragments) && old(store.fragments)[pid].chainId in chains ==>
        var c, f := chains[old(store.fragments)[pid].chainId], old(store.fragments)[pid];
        0 <= old(c.next) < |c.chain| ==>
          var link := c.chain[old(c.next)];
          var g := Mutated(p, f, Drive(link, entropy, nonce));
          && (sent.Some? <==> g.Some?)
          && (sent.Some? ==>
                && sent.value.ack == Ack(nodeId, pid, g.value.pid, g.value.epoch, true, f.chainId, link)
                && sent.value.notices == Notices(nodeId, f.members,
                     Notice(f.groupId, f.groupToken, pid, g.value.pid, endpoint, g.value.epoch)))
    {
      var row := store.GetFragment(pid);
      if row.None? {
        return None;
      }
      if row.value.chainId !in chains {
        return None;
      }
      var cc := chains[row.value.chainId];
      var seed := cc.Consume();
      if seed.None? {
        return None;
      }
      sent := ApplyMutation(p, pid, Drive(seed.value, entropy, nonce), true);
    }
  }

  // --- What depends on what goes in ---

  /** Key derivation that gives different ratchet inputs different keys. */
  ghost predicate SeparatesKeys(p: Primitives) {
    forall ikm, salt, ikm', salt' ::
      (p.hkdf(ikm, salt, "mutant-db/ratchet-step") == p.hkdf(ikm', salt', "mutant-db/ratchet-step") <==>
       ikm == ikm' && salt == salt')
  }

  /** Codes that give different seeds or messages different texts. */
  ghost predicate SeparatesPids(p: Primitives) {
    forall seed, pid, seed', pid' :: p.mac(seed, pid) == p.mac(seed', pid') <==> seed == seed' && pid == pid'
  }

  /** A mutation of a held row leaves behind row g, which was not there before. */
  ghost predicate Stores(p: Primitives, s: StoreState, pid: Pid, d: Drive, g: Fragment) {
    && pid in s.fragments && s.fragments[pid].pid == pid && Mutable(s.fragments[pid], d)
    && g.pid in MutateStore(p, s, pid, d).fragments && MutateStore(p, s, pid, d).fragments[g.pid] == g
    && !(g.pid in s.fragments && s.fragments[g.pid] == g)
  }

  lemma StoredRow(p: Primitives, s: StoreState, pid: Pid, d: Drive, g: Fragment)
    requires Stores(p, s, pid, d, g)
    ensures Mutated(p, s.fragments[pid], d) == Some(g)
  {
  }

  lemma Glued(a: Bytes, b: Bytes, a': Bytes, b': Bytes)
    requires |b| == |b'|
    ensures a + b == a' + b' <==> a == a' && b == b'
  {
    if a + b == a' + b' {
      assert a == (a + b)[..|a|] && a' == (a' + b')[..|a'|];
      assert b == (a + b)[|a|..] && b' == (a' + b')[|a'|..];
    }
  }

  /** Two mutations, of the same row or not, store the same key only when the old keys, the seeds
      and the entropies (of equal length) are all the same. */
  lemma StoredKeysDiffer(p: Primitives, s: StoreState, pid: Pid, d: Drive, g: Fragment,
                         s': StoreState, pid': Pid, d': Drive, g': Fragment)
    requires SeparatesKeys(p) && Stores(p, s, pid, d, g) && Stores(p, s', pid', d', g')
    requires |d.entropy| == |d'.entropy|
    ensures g.key == g'.key <==>
      s.fragments[pid].key == s'.fragments[pid'].key && d.seed == d'.seed && d.entropy == d'.entropy
  {
    StoredRow(p, s, pid, d, g);
    StoredRow(p, s', pid', d', g');
    Glued(d.seed, d.entropy, d'.seed, d'.entropy);
  }

  /** And they store the same pseudonym only when the old pseudonyms and the seeds are the same. */
  lemma StoredPidsDiffer(p: Primitives, s: StoreState, pid: Pid, d: Drive, g: Fragment,
                         s': StoreState, pid': Pid, d': Drive, g': Fragment)
    requires SeparatesPids(p) && Stores(p, s, pid, d, g) && Stores(p, s', pid', d', g')
    ensures g.pid == g'.pid <==> pid == pid' && d.seed == d'.seed
  {
    StoredRow(p, s, pid, d, g);
    StoredRow(p, s', pid', d', g');
  }

  /** A mutation changes the key, and the share no longer opens under the old one, if the derivation
      never returns its salt. */
  lemma StoredKeyIsNew(p: Primitives, s: StoreState, pid: Pid, d: Drive, g: Fragment)
    requires Stores(p, s, pid, d, g) && forall ikm, salt, info :: p.hkdf(ikm, salt, info) != salt
    ensures g.key != s.fragments[pid].key && g.Open() == s.fragments[pid].Open() && g.Open().Some?
    ensures forall aad :: Decrypt(s.fragments[pid].key, g.ciphertext, aad) == None
  {
    StoredRow(p, s, pid, d, g);
  }

  // --- Many mutations ---

  datatype Seed = Seed(pid: Pid, drive: Drive)

  /** The tables after a list of seed events, each for some PID. */
  function MutateAll(p: Primitives, s: StoreState, seeds: seq<Seed>): StoreState
    decreases |seeds|
  {
    if seeds == [] then s
    else
      var before := MutateAll(p, s, seeds[..|seeds| - 1]);
      var last := seeds[|seeds| - 1];
      MutateStore(p, before, last.pid, last.drive)
  }

  /** The seeds that really move the fragment that starts as f: addressed to the pseudonym it has
      by then, and usable. */
  function Effective(p: Primitives, f: Fragment, seeds: seq<Seed>): (r: (seq<Drive>, Fragment))
    decreases |seeds|
  {
    if seeds == [] then ([], f)
    else
      var (drives, g) := Effective(p, f, seeds[..|seeds| - 1]);
      var last := seeds[|seeds| - 1];
      if last.pid == g.pid && Mutated(p, g, last.drive).Some?
      then (drives + [last.drive], Mutated(p, g, last.drive).value)
      else (drives, g)
  }

  function FoldPid(p: Primitives, pid: Pid, drives: seq<Drive>): Pid
    decreases |drives|
  {
    if drives == [] then pid
    else NextPseudoID(p, FoldPid(p, pid, drives[..|drives| - 1]), drives[|drives| - 1].seed)
  }

  function FoldKey(p: Primitives, key: Bytes, drives: seq<Drive>): Option<Bytes>
    decreases |drives|
  {
    if drives == [] then Some(key)
    else
      var last := drives[|drives| - 1];
      match FoldKey(p, key, drives[..|drives| - 1])
      case None => None
      case Some(k) => Advance(p, k, last.seed, last.entropy)
  }

  /** Every PID the tables have ever used along the events. */
  function UsedPids(p: Primitives, s: StoreState, seeds: seq<Seed>): set<Pid>
    decreases |seeds|
  {
    if seeds == [] then s.fragments.Keys
    else UsedPids(p, s, seeds[..|seeds| - 1]) + MutateAll(p, s, seeds).fragments.Keys
  }

  /** PID rotations never repeat: each mutation's new PID is one the tables never used before. */
  predicate FreshPids(p: Primitives, s: StoreState, seeds: seq<Seed>)
    decreases |seeds|
  {
    seeds != [] ==>
      var prefix := seeds[..|seeds| - 1];
      var before := MutateAll(p, s, prefix);
      var last := seeds[|seeds| - 1];
      && FreshPids(p, s, prefix)
      && (last.pid in before.fragments && Mutated(p, before.fragments[last.pid], last.drive).Some? ==>
            Mutated(p, before.fragments[last.pid], last.drive).value.pid !in UsedPids(p, s, prefix))
  }

  ghost predicate Keyed(s: StoreState) {
    forall pid :: pid in s.fragments ==> s.fragments[pid].pid == pid
  }

  lemma {:induction false} UsedContainsCurrent(p: Primitives, s: StoreState, seeds: seq<Seed>)
    ensures MutateAll(p, s, seeds).fragments.Keys <= UsedPids(p, s, seeds)
  {
  }

  lemma {:induction false} AllKeyed(p: Primitives, s: StoreState, seeds: seq<Seed>)
    requires Keyed(s)
    ensures Keyed(MutateAll(p, s, seeds))
    decreases |seeds|
  {
    if seeds != [] {
      AllKeyed(p, s, seeds[..|seeds| - 1]);
    }
  }

  /** g is f after the given effective drives: pseudonym and key folded, n epochs on, all else
      and the share itself unchanged. */
  ghost predicate Ratcheted(p: Primitives, f: Fragment, drives: seq<Drive>, g: Fragment) {
    && g.pid == FoldPid(p, f.pid, drives)
    && FoldKey(p, f.key, drives) == Some(g.key)
    && (if drives == [] then g.epoch == f.epoch else g.epoch == (f.epoch + |drives|) % 0x1_0000_0000_0000_0000)
    && g.Open() == f.Open() && f.Open().Some?
    && g.groupId == f.groupId && g.groupToken == f.groupToken && g.chainId == f.chainId
    && g.threshold == f.threshold && g.total == f.total && g.members == f.members
  }

  lemma EpochAdds(start: nat, n: nat, e: nat)
    requires if n == 0 then e == start else e == (start + n) % 0x1_0000_0000_0000_0000
    ensures NextEpoch(e) == (start + (n + 1)) % 0x1_0000_0000_0000_0000
  {
  }

  lemma RatchetedOnce(p: Primitives, f: Fragment, drives: seq<Drive>, g: Fragment, d: Drive)
    requires Ratcheted(p, f, drives, g) && Mutated(p, g, d).Some?
    ensures Ratcheted(p, f, drives + [d], Mutated(p, g, d).value)
  {
    var all := drives + [d];
    assert all[..|all| - 1] == drives && all[|all| - 1] == d;
    EpochAdds(f.epoch, |drives|, g.epoch);
  }

  lemma RatchetedStart(p: Primitives, s: StoreState, pid: Pid)
    requires Keyed(s) && pid in s.fragments && s.fragments[pid].Open().Some?
    ensures Ratcheted(p, s.fragments[pid], [], s.fragments[pid]) && s.fragments[pid].pid == pid
  {
  }

  lemma OtherRowSurvives(p: Primitives, s: StoreState, pid: Pid, d: Drive, other: Pid)
    requires pid in s.fragments && other in s.fragments
    requires pid == other ==> Mutated(p, s.fragments[pid], d).None?
    requires Mutated(p, s.fragments[pid], d).Some? ==> Mutated(p, s.fragments[pid], d).value.pid !in s.fragments
    ensures other in MutateStore(p, s, pid, d).fragments
    ensures MutateStore(p, s, pid, d).fragments[other] == s.fragments[other]
  {
  }

  /** The n-step ratchet: after any seed events the fragment is still held, as what its effective
      seeds make of it. */
  lemma {:induction false} RatchetSteps(p: Primitives, s: StoreState, pid: Pid, seeds: seq<Seed>)
    requires Keyed(s) && FreshPids(p, s, seeds) && pid in s.fragments && s.fragments[pid].Open().Some?
    ensures var (drives, g) := Effective(p, s.fragments[pid], seeds);
      && Ratcheted(p, s.fragments[pid], drives, g)
      && g.pid in MutateAll(p, s, seeds).fragments && MutateAll(p, s, seeds).fragments[g.pid] == g
    decreases |seeds|
  {
    hide Ratcheted, Mutated, UsedPids, Keyed;
    var f := s.fragments[pid];
    if seeds == [] {
      RatchetedStart(p, s, pid);
    } else {
      var prefix, last := seeds[..|seeds| - 1], seeds[|seeds| - 1];
      RatchetSteps(p, s, pid, prefix);
      var before := MutateAll(p, s, prefix);
      var (drives, g) := Effective(p, f, prefix);
      UsedContainsCurrent(p, s, prefix);
      AllKeyed(p, s, prefix);
      if last.pid == g.pid && Mutated(p, g, last.drive).Some? {
        RatchetedOnce(p, f, drives, g, last.drive);
      } else if last.pid in before.fragments {
        OtherRowSurvives(p, before, last.pid, last.drive, g.pid);
      }
    }
  }

  ghost predicate SameSeeds(drives: seq<Drive>, drives': seq<Drive>) {
    |drives| == |drives'| && forall i :: 0 <= i < |drives| ==> drives[i].seed == drives'[i].seed
  }

  ghost predicate SameEntropy(drives: seq<Drive>, drives': seq<Drive>) {
    |drives| == |drives'| && forall i :: 0 <= i < |drives| ==> drives[i].entropy == drives'[i].entropy
  }

  lemma SameBefore(drives: seq<Drive>, drives': seq<Drive>)
    requires |drives| == |drives'|
    ensures drives == [] ==> SameSeeds(drives, drives') && SameEntropy(drives, drives')
    ensures drives != [] ==>
      var n := |drives| - 1;
      && (SameSeeds(drives, drives') <==> SameSeeds(drives[..n], drives'[..n]) && drives[n].seed == drives'[n].seed)
      && (SameEntropy(drives, drives') <==>
          SameEntropy(drives[..n], drives'[..n]) && drives[n].entropy == drives'[n].entropy)
  {
  }

  lemma {:induction false} FoldedPids(p: Primitives, pid: Pid, drives: seq<Drive>, drives': seq<Drive>)
    requires SeparatesPids(p) && |drives| == |drives'|
    ensures FoldPid(p, pid, drives) == FoldPid(p, pid, drives') <==> SameSeeds(drives, drives')
    decreases |drives|
  {
    hide SameSeeds, SameEntropy;
    SameBefore(drives, drives');
    if drives != [] {
      var n := |drives| - 1;
      FoldedPids(p, pid, drives[..n], drives'[..n]);
    }
  }

  lemma AdvancedKeys(p: Primitives, k: Bytes, d: Drive, k': Bytes, d': Drive)
    requires SeparatesKeys(p) && |d.entropy| == |d'.entropy|
    requires Advance(p, k, d.seed, d.entropy).Some? && Advance(p, k', d'.seed, d'.entropy).Some?
    ensures Advance(p, k, d.seed, d.entropy) == Advance(p, k', d'.seed, d'.entropy) <==>
      k == k' && d.seed == d'.seed && d.entropy == d'.entropy
  {
    Glued(d.seed, d.entropy, d'.seed, d'.entropy);
  }

  lemma {:induction false} FoldedKeys(p: Primitives, key: Bytes, drives: seq<Drive>, drives': seq<Drive>)
    requires SeparatesKeys(p) && |drives| == |drives'|
    requires forall i :: 0 <= i < |drives| ==> |drives[i].entropy| == |drives'[i].entropy|
    requires FoldKey(p, key, drives).Some? && FoldKey(p, key, drives').Some?
    ensures FoldKey(p, key, drives) == FoldKey(p, key, drives') <==>
      SameSeeds(drives, drives') && SameEntropy(drives, drives')
    decreases |drives|
  {
    hide SeparatesKeys, Advance, SameSeeds, SameEntropy;
    SameBefore(drives, drives');
    if drives != [] {
      var n := |drives| - 1;
      FoldedKeys(p, key, drives[..n], drives'[..n]);
      var k, k' := FoldKey(p, key, drives[..n]).value, FoldKey(p, key, drives'[..n]).value;
      AdvancedKeys(p, k, drives[n], k', drives'[n]);
    }
  }

  /** The ratchet forgets nothing: after equally many mutations of a row, two histories agree on the
      key exactly when all their seeds and entropies are the same, and on the pseudonym exactly when
      all their seeds are. */
  lemma HistoriesDiffer(p: Primitives, f: Fragment, drives: seq<Drive>, g: Fragment, drives': seq<Drive>,
                        g': Fragment)
    requires SeparatesKeys(p) && SeparatesPids(p) && |drives| == |drives'|
    requires Ratcheted(p, f, drives, g) && Ratcheted(p, f, drives', g')
    requires forall i :: 0 <= i < |drives| ==> |drives[i].entropy| == |drives'[i].entropy|
    ensures g.key == g'.key <==> SameSeeds(drives, drives') && SameEntropy(drives, drives')
    ensures g.pid == g'.pid <==> SameSeeds(drives, drives')
  {
    hide SeparatesKeys, SeparatesPids;
    FoldedPids(p, f.pid, drives, drives');
    FoldedKeys(p, f.key, drives, drives');
  }

  /** A PID that was rotated away never comes back. */
  lemma {:induction false} RetiredStaysAway(p: Primitives, s: StoreState, seeds: seq<Seed>, n: nat, pid: Pid)
    requires FreshPids(p, s, seeds) && n <= |seeds|
    requires pid in UsedPids(p, s, seeds[..n]) && pid !in MutateAll(p, s, seeds[..n]).fragments
    ensures pid !in MutateAll(p, s, seeds).fragments && pid in UsedPids(p, s, seeds)
    decreases |seeds|
  {
    if n < |seeds| {
      var prefix := seeds[..|seeds| - 1];
      assert prefix[..n] == seeds[..n];
      RetiredStaysAway(p, s, prefix, n, pid);
    } else {
      assert seeds[..n] == seeds;
    }
  }

  /** A seed for a pseudonym that has been rotated away - delivered again, or late - changes
      nothing, now or ever after. */
  lemma StaleSeedIgnored(p: Primitives, s: StoreState, seeds: seq<Seed>, n: nat, stale: Seed)
    requires FreshPids(p, s, seeds) && n <= |seeds|
    requires stale.pid in UsedPids(p, s, seeds[..n]) && stale.pid !in MutateAll(p, s, seeds[..n]).fragments
    ensures MutateAll(p, s, seeds + [stale]) == MutateAll(p, s, seeds)
  {
    RetiredStaysAway(p, s, seeds, n, stale.pid);
    assert (seeds + [stale])[..|seeds|] == seeds;
  }
}
