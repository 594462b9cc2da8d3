/** The orchestrator over whole runs of messages: its anchors follow the hash chains of the
    fragments, its routes keep their endpoints, and its epoch counts. */
module OrchestratorRuns {
  import opened Wrappers
  import opened Ids
  import opened Shamir
  import opened Orchestrator
  import Chains = HashChain

  /** The tables of an orchestrator that starts empty and takes the messages in order. */
  ghost predicate IsRun(sha: Chains.Hash, tables: seq<Table>, ms: seq<Message>) {
    && |tables| == |ms| + 1 && tables[0] == Table(map[], map[], 0)
    && forall i :: 0 <= i < |ms| ==> tables[i + 1] == After(sha, tables[i], ms[i])
  }

  // --- Anchors ---

  predicate Announces(m: Message, c: ChainId) {
    m.Announce? && m.chainId == c
  }

  predicate Reveals(m: Message, c: ChainId) {
    m.Ack? && m.cold && m.chainId == c
  }

  /** Message a announced the chain with its tip, and none after it among the first i did again. */
  ghost predicate Announced(ms: seq<Message>, a: nat, i: nat, c: ChainId, tip: Bytes) {
    && a < i <= |ms| && Announces(ms[a], c) && ms[a].chainTip == tip
    && forall k :: a < k < i ==> !Announces(ms[k], c)
  }

  /** How many of the reveals of chain c among messages a to i are accepted: each one that is the
      next link down. */
  ghost function Accepted(chain: seq<Bytes>, c: ChainId, ms: seq<Message>, a: nat, i: nat): nat
    requires a <= i <= |ms|
  {
    if i == a then 0
    else
      var k, last := Accepted(chain, c, ms, a, i - 1), ms[i - 1];
      if Reveals(last, c) && k < |chain| - 1 && last.seedUsed == chain[|chain| - 2 - k] then k + 1 else k
  }

  /** A chain has an anchor once it has been announced. */
  lemma {:induction false} KnownIffAnnounced(sha: Chains.Hash, tables: seq<Table>, ms: seq<Message>, i: nat,
                                             c: ChainId)
    requires IsRun(sha, tables, ms) && i <= |ms|
    ensures c in tables[i].anchors <==> exists a :: 0 <= a < i && Announces(ms[a], c)
  {
    if i > 0 {
      KnownIffAnnounced(sha, tables, ms, i - 1, c);
      assert tables[i] == After(sha, tables[i - 1], ms[i - 1]);
      assert Announces(ms[i - 1], c) ==> c in tables[i].anchors;
    }
  }

  lemma LastStep(sha: Chains.Hash, tables: seq<Table>, ms: seq<Message>, i: nat)
    requires IsRun(sha, tables, ms) && 0 < i <= |ms|
    ensures i < |tables| && tables[i] == After(sha, tables[i - 1], ms[i - 1])
  {
  }

  lemma AnchorStarts(sha: Chains.Hash, t: Table, m: Message, c: ChainId)
    requires Announces(m, c)
    ensures c in After(sha, t, m).anchors && After(sha, t, m).anchors[c] == m.chainTip
  {
  }

  lemma AnchorSteps(sha: Chains.Hash, t: Table, m: Message, c: ChainId, chain: seq<Bytes>, k: nat)
    requires |chain| >= 1 && Chains.IsChain(sha, chain) && k < |chain| && !Announces(m, c)
    requires c in t.anchors && t.anchors[c] == chain[|chain| - 1 - k]
    requires Reveals(m, c) ==> m.seedUsed != sha(chain[0])
    ensures c in After(sha, t, m).anchors
    ensures var k' := if Reveals(m, c) && k < |chain| - 1 && m.seedUsed == chain[|chain| - 2 - k] then k + 1 else k;
      k' < |chain| && After(sha, t, m).anchors[c] == chain[|chain| - 1 - k']
  {
    if k < |chain| - 1 {
      assert chain[|chain| - 2 - k] == sha(chain[|chain| - 1 - k]);
    }
  }

  /** Between announcements the anchor of a chain is its link as far below the tip as reveals were
      accepted, whatever other messages come in between: scheduled acks, acks for other chains, and
      reveals that are not the next link. (Below its last link a chain has nothing to reveal.) */
  lemma {:induction false} AnchorFollowsChain(sha: Chains.Hash, tables: seq<Table>, ms: seq<Message>, a: nat,
                                              c: ChainId, chain: seq<Bytes>, i: nat)
    requires IsRun(sha, tables, ms) && |chain| >= 1 && Chains.IsChain(sha, chain)
    requires Announced(ms, a, i, c, chain[|chain| - 1])
    requires forall k :: a < k < i && Reveals(ms[k], c) ==> ms[k].seedUsed != sha(chain[0])
    ensures Accepted(chain, c, ms, a + 1, i) < |chain| && c in tables[i].anchors
    ensures tables[i].anchors[c] == chain[|chain| - 1 - Accepted(chain, c, ms, a + 1, i)]
    decreases i
  {
    hide IsRun, After, Reveals, Announces, Chains.IsChain;
    LastStep(sha, tables, ms, i);
    if i == a + 1 {
      AnchorStarts(sha, tables[a], ms[a], c);
    } else {
      var k := Accepted(chain, c, ms, a + 1, i - 1);
      AnchorFollowsChain(sha, tables, ms, a, c, chain, i - 1);
      AnchorSteps(sha, tables[i - 1], ms[i - 1], c, chain, k);
    }
  }

  // --- Both ends of a chain ---

  /** The reveals of chain c among messages a to i, in order. */
  ghost function RevealedSeeds(ms: seq<Message>, c: ChainId, a: nat, i: nat): seq<Bytes>
    requires a <= i <= |ms|
  {
    if i == a then []
    else RevealedSeeds(ms, c, a, i - 1) + if Reveals(ms[i - 1], c) then [ms[i - 1].seedUsed] else []
  }

  /** The links whose reveals reach the orchestrator in the first i events of a run of the chain. */
  ghost function Arrivals(chain: seq<Bytes>, events: seq<Chains.Event>, i: nat): seq<Bytes>
    requires i <= |events|
  {
    if i == 0 then []
    else
      var last := events[i - 1];
      Arrivals(chain, events, i - 1) + if last.Deliver? && last.j < |chain| then [chain[last.j]] else []
  }

  /** The anchor once some reveals have been checked against it. */
  ghost function Checked(sha: Chains.Hash, anchor: Bytes, seeds: seq<Bytes>): Bytes
    decreases |seeds|
  {
    if seeds == [] then anchor
    else
      var before, last := Checked(sha, anchor, seeds[..|seeds| - 1]), seeds[|seeds| - 1];
      if last == sha(before) then last else before
  }

  lemma NothingChecked(sha: Chains.Hash, tip: Bytes)
    ensures Checked(sha, tip, []) == tip
  {
  }

  lemma CheckedNext(sha: Chains.Hash, anchor: Bytes, seeds: seq<Bytes>, more: Option<Bytes>)
    ensures Checked(sha, anchor, seeds + if more.Some? then [more.value] else [])
      == if more.Some? && more.value == sha(Checked(sha, anchor, seeds)) then more.value
         else Checked(sha, anchor, seeds)
  {
    if more.Some? {
      assert (seeds + [more.value])[..|seeds|] == seeds;
    } else {
      assert seeds + [] == seeds;
    }
  }

  lemma {:induction false} TableChecks(sha: Chains.Hash, tables: seq<Table>, ms: seq<Message>, a: nat, c: ChainId,
                                       tip: Bytes, i: nat)
    requires IsRun(sha, tables, ms) && Announced(ms, a, i, c, tip)
    ensures c in tables[i].anchors
    ensures tables[i].anchors[c] == Checked(sha, tip, RevealedSeeds(ms, c, a + 1, i))
    decreases i
  {
    hide Checked;
    var m := ms[i - 1];
    assert tables[i] == After(sha, tables[i - 1], m);
    if i > a + 1 {
      TableChecks(sha, tables, ms, a, c, tip, i - 1);
      CheckedNext(sha, tip, RevealedSeeds(ms, c, a + 1, i - 1), if Reveals(m, c) then Some(m.seedUsed) else None);
    } else {
      NothingChecked(sha, tip);
    }
  }

  lemma {:induction false} ChainChecks(sha: Chains.Hash, chain: seq<Bytes>, states: seq<Chains.State>,
                                       events: seq<Chains.Event>, i: nat)
    requires Chains.IsRun(sha, chain, states, events) && i <= |events|
    ensures states[i].anchor == Checked(sha, chain[|chain| - 1], Arrivals(chain, events, i))
  {
    hide Checked;
    if i > 0 {
      ChainChecks(sha, chain, states, events, i - 1);
      var e := events[i - 1];
      assert Chains.Enabled(states[i - 1], e);
      CheckedNext(sha, chain[|chain| - 1], Arrivals(chain, events, i - 1),
                  if e.Deliver? then Some(chain[e.j]) else None);
    } else {
      NothingChecked(sha, chain[|chain| - 1]);
    }
  }

  /** When the reveals among the messages are those that arrive in a run of the chain, in their
      order, the table's anchor is the anchor of that run. */
  lemma AnchorOfTheChainsRun(sha: Chains.Hash, tables: seq<Table>, ms: seq<Message>, a: nat, c: ChainId,
                             chain: seq<Bytes>, states: seq<Chains.State>, events: seq<Chains.Event>)
    requires IsRun(sha, tables, ms) && Chains.IsRun(sha, chain, states, events)
    requires Announced(ms, a, |ms|, c, chain[|chain| - 1])
    requires RevealedSeeds(ms, c, a + 1, |ms|) == Arrivals(chain, events, |events|)
    ensures c in tables[|ms|].anchors && states[|events|].accepted <= |chain| - 1
    ensures tables[|ms|].anchors[c] == states[|events|].anchor == chain[|chain| - 1 - states[|events|].accepted]
  {
    hide Checked, RevealedSeeds, Arrivals;
    TableChecks(sha, tables, ms, a, c, chain[|chain| - 1], |ms|);
    ChainChecks(sha, chain, states, events, |events|);
    Chains.AnchorCountsAccepted(sha, chain, states, events, |events|);
  }

  // --- Routes and epochs ---

  /** The table's epoch counts the messages, as an unsigned 64-bit counter. */
  lemma {:induction false} EpochCounts(sha: Chains.Hash, tables: seq<Table>, ms: seq<Message>, i: nat)
    requires IsRun(sha, tables, ms) && i <= |ms|
    ensures tables[i].epoch == i % 0x1_0000_0000_0000_0000
  {
    if i > 0 {
      EpochCounts(sha, tables, ms, i - 1);
      assert tables[i] == After(sha, tables[i - 1], ms[i - 1]);
    }
  }

  /** Every route's endpoint was announced, or is the name of a node whose ack came for a pseudonym
      that had no route. */
  lemma {:induction false} EndpointOrigin(sha: Chains.Hash, tables: seq<Table>, ms: seq<Message>, i: nat, pid: Pid)
    returns (j: nat)
    requires IsRun(sha, tables, ms) && i <= |ms| && pid in tables[i].routes
    ensures j < i
    ensures ms[j].Announce? ==> tables[i].routes[pid].endpoint == ms[j].endpoint
    ensures ms[j].Ack? ==>
      ms[j].oldPid !in tables[j].routes && tables[i].routes[pid].endpoint == ms[j].nodeId
  {
    var m := ms[i - 1];
    assert tables[i] == After(sha, tables[i - 1], m);
    if m.Announce? && m.pid == pid {
      j := i - 1;
    } else if m.Ack? && m.newPid == pid {
      if m.oldPid in tables[i - 1].routes {
        j := EndpointOrigin(sha, tables, ms, i - 1, m.oldPid);
      } else {
        j := i - 1;
      }
    } else {
      j := EndpointOrigin(sha, tables, ms, i - 1, pid);
    }
  }
}
