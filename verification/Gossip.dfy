/** Gossip about pseudonym rotations inside one group, with atomic mutations and atomic notice
    handlers. A notice, once sent, may be handled never, late, repeatedly and out of order. */
module Gossip {
  import opened Wrappers
  import opened Ids
  import opened Store
  import opened Ratchet
  import opened Mutation

  /** The holders, in manifest order, and which of them owns the manifest: none for a backup. */
  datatype Group = Group(nodes: seq<NodeId>, endpoints: seq<Endpoint>, owner: Option<nat>)

  /** A notice under way: the rank-th rotation of holder `sender`. */
  datatype Envelope = Envelope(to: Endpoint, notice: Notice, sender: nat, rank: nat)

  datatype Handling = Handling(at: nat, sender: nat, rank: nat)

  datatype State = State(
    rows: seq<Fragment>,      // what each holder holds
    manifest: Manifest,
    past: seq<seq<Pid>>,      // each holder's pseudonyms so far, the current one last
    sent: seq<Envelope>,
    log: seq<Handling>)

  ghost predicate WellFormed(g: Group) {
    && |g.nodes| == |g.endpoints| && (g.owner.Some? ==> g.owner.value < |g.nodes|)
    && (forall i, j :: 0 <= i < j < |g.nodes| ==> g.nodes[i] != g.nodes[j])
    && (forall i, j :: 0 <= i < j < |g.nodes| ==> g.endpoints[i] != g.endpoints[j])
  }

  // --- How far a list has followed ---

  /** The ranks that node i handled from one sender, in order. */
  function Ranks(log: seq<Handling>, i: nat, sender: nat): seq<nat>
    decreases |log|
  {
    if log == [] then []
    else
      var before, last := Ranks(log[..|log| - 1], i, sender), log[|log| - 1];
      if last.at == i && last.sender == sender then before + [last.rank] else before
  }

  /** The position after handling: only the rotation away from the current position moves it. */
  function Followed(ranks: seq<nat>): (r: nat)
    ensures r <= |ranks|
    decreases |ranks|
  {
    if ranks == [] then 0
    else
      var before := Followed(ranks[..|ranks| - 1]);
      if ranks[|ranks| - 1] == before then before + 1 else before
  }

  /** The position of one sender in a list kept at node `at`; no node but a holder hears anything. */
  function Position(log: seq<Handling>, at: Option<nat>, sender: nat): nat {
    if at.Some? then Followed(Ranks(log, at.value, sender)) else 0
  }

  /** The list names the holders in order, each by the pseudonym at the position followed to. */
  ghost predicate Follows(g: Group, s: State, ms: seq<Member>, at: Option<nat>) {
    && |ms| == |g.nodes| == |g.endpoints| == |s.past|
    && forall j :: 0 <= j < |ms| ==>
         && ms[j].nodeId == g.nodes[j] && ms[j].endpoint == g.endpoints[j]
         && Position(s.log, at, j) < |s.past[j]| && ms[j].pid == s.past[j][Position(s.log, at, j)]
  }

  ghost predicate EnvelopeOk(g: Group, s: State, e: Envelope) {
    && e.sender < |s.past| == |g.nodes| == |g.endpoints| && e.rank + 1 < |s.past[e.sender]|
    && e.notice.oldPid == s.past[e.sender][e.rank] && e.notice.newPid == s.past[e.sender][e.rank + 1]
    && e.notice.newEndpoint == g.endpoints[e.sender]
    && e.to in g.endpoints && e.to != g.endpoints[e.sender]
  }

  ghost predicate NoRepeats(past: seq<seq<Pid>>) {
    forall a, b, k, l | 0 <= a < |past| && 0 <= b < |past| && 0 <= k < |past[a]| && 0 <= l < |past[b]| ::
      past[a][k] == past[b][l] ==> a == b && k == l
  }

  ghost predicate Inv(g: Group, s: State) {
    && WellFormed(g) && |s.rows| == |g.nodes| == |s.past|
    && (forall i :: 0 <= i < |s.rows| ==> Follows(g, s, s.rows[i].members, Some(i)))
    && Follows(g, s, s.manifest.members, g.owner)
    && (forall j :: 0 <= j < |s.past| ==> |s.past[j]| > 0 && s.past[j][|s.past[j]| - 1] == s.rows[j].pid)
    && NoRepeats(s.past)
    && (forall e :: e in s.sent ==> EnvelopeOk(g, s, e))
  }

  // --- Steps ---

  datatype Action = Mutate(j: nat, d: Drive) | Handle(m: nat)

  function Envelopes(ns: seq<(Endpoint, Notice)>, sender: nat, rank: nat): (es: seq<Envelope>)
    ensures |es| == |ns|
  {
    seq(|ns|, i requires 0 <= i < |ns| => Envelope(ns[i].0, ns[i].1, sender, rank))
  }

  /** The sent notice of a mutation of holder j. */
  function NoticeOf(g: Group, s: State, j: nat, f: Fragment): Notice
    requires j < |s.rows| && j < |g.endpoints|
  {
    Notice(s.rows[j].groupId, s.rows[j].groupToken, s.rows[j].pid, f.pid, g.endpoints[j], f.epoch)
  }

  ghost predicate Enabled(p: Primitives, g: Group, s: State, a: Action) {
    match a
    case Mutate(j, d) =>
      && j < |s.rows| == |s.past| == |g.nodes| == |g.endpoints| && |s.past[j]| > 0 && Mutated(p, s.rows[j], d).Some?
      && forall i :: 0 <= i < |s.past| ==> Mutated(p, s.rows[j], d).value.pid !in s.past[i]
    case Handle(m) => m < |s.sent| && s.sent[m].to in g.endpoints && |g.endpoints| == |s.rows|
  }

  /** The holder behind an endpoint. */
  ghost function HolderAt(g: Group, e: Endpoint): nat
    requires e in g.endpoints
  {
    var i :| 0 <= i < |g.endpoints| && g.endpoints[i] == e;
    i
  }

  ghost function Next(p: Primitives, g: Group, s: State, a: Action): State
    requires Enabled(p, g, s, a)
  {
    match a
    case Mutate(j, d) =>
      var f := Mutated(p, s.rows[j], d).value;
      s.(rows := s.rows[j := f], past := s.past[j := s.past[j] + [f.pid]],
         sent := s.sent + Envelopes(Notices(g.nodes[j], s.rows[j].members, NoticeOf(g, s, j, f)), j, |s.past[j]| - 1))
    case Handle(m) =>
      var e := s.sent[m];
      var i := HolderAt(g, e.to);
      s.(rows := s.rows[i := s.rows[i].(members :=
           Rotated(s.rows[i].members, e.notice.oldPid, e.notice.newPid, e.notice.newEndpoint))],
         manifest := if g.owner == Some(i)
           then RotateManifest(s.manifest, e.notice.oldPid, e.notice.newPid, e.notice.newEndpoint)
                     else s.manifest,
         log := s.log + [Handling(i, e.sender, e.rank)])
  }

  // --- A mutation tells every other holder ---

  /** The holders other than j, in order. */
  function Others(g: Group, j: nat, n: nat, nt: Notice): seq<(Endpoint, Notice)>
    requires n <= |g.endpoints|
  {
    if n == 0 then [] else Others(g, j, n - 1, nt) + if n - 1 == j then [] else [(g.endpoints[n - 1], nt)]
  }

  lemma {:induction false} NoticesSnoc(self: NodeId, ms: seq<Member>, m: Member, nt: Notice)
    ensures Notices(self, ms + [m], nt) == Notices(self, ms, nt) + if m.nodeId == self then [] else [(m.endpoint, nt)]
    decreases |ms|
  {
    if ms == [] {
      assert ([] + [m])[1..] == [];
    } else {
      assert (ms + [m])[1..] == ms[1..] + [m];
      NoticesSnoc(self, ms[1..], m, nt);
    }
  }

  lemma {:induction false} NoticesPrefix(g: Group, ms: seq<Member>, j: nat, n: nat, nt: Notice)
    requires WellFormed(g) && j < |g.nodes| == |ms| && n <= |ms|
    requires forall i :: 0 <= i < |ms| ==> ms[i].nodeId == g.nodes[i] && ms[i].endpoint == g.endpoints[i]
    ensures Notices(g.nodes[j], ms[..n], nt) == Others(g, j, n, nt)
  {
    if n > 0 {
      NoticesPrefix(g, ms, j, n - 1, nt);
      assert ms[..n] == ms[..n - 1] + [ms[n - 1]];
      NoticesSnoc(g.nodes[j], ms[..n - 1], ms[n - 1], nt);
    }
  }

  lemma {:induction false} OthersAre(g: Group, j: nat, n: nat, nt: Notice)
    requires WellFormed(g) && n <= |g.endpoints|
    ensures forall x :: x in Others(g, j, n, nt) <==>
      x.1 == nt && exists i :: 0 <= i < n && i != j && x.0 == g.endpoints[i]
  {
    if n > 0 {
      OthersAre(g, j, n - 1, nt);
    }
  }

  /** However stale its list, a mutating holder sends one notice to each of the others and none to
      itself. */
  lemma EveryOtherHolderIsTold(g: Group, s: State, j: nat, nt: Notice)
    requires Inv(g, s) && j < |s.rows|
    ensures Notices(g.nodes[j], s.rows[j].members, nt) == Others(g, j, |g.endpoints|, nt)
    ensures forall x :: x in Notices(g.nodes[j], s.rows[j].members, nt) <==>
      x.1 == nt && exists i :: 0 <= i < |g.endpoints| && i != j && x.0 == g.endpoints[i]
  {
    var ms := s.rows[j].members;
    assert Follows(g, s, ms, Some(j));
    assert ms[..|ms|] == ms;
    NoticesPrefix(g, ms, j, |ms|, nt);
    OthersAre(g, j, |g.endpoints|, nt);
  }

  // --- Every step keeps the invariant ---

  lemma RanksSnoc(log: seq<Handling>, h: Handling, i: nat, sender: nat)
    ensures Ranks(log + [h], i, sender) == Ranks(log, i, sender)
      + if h.at == i && h.sender == sender then [h.rank] else []
  {
    assert (log + [h])[..|log|] == log;
  }

  lemma FollowedSnoc(ranks: seq<nat>, r: nat)
    ensures Followed(ranks + [r]) == if r == Followed(ranks) then r + 1 else Followed(ranks)
  {
    assert (ranks + [r])[..|ranks|] == ranks;
  }

  lemma PositionSnoc(log: seq<Handling>, h: Handling, at: Option<nat>, sender: nat)
    ensures Position(log + [h], at, sender)
      == if at == Some(h.at) && h.sender == sender && h.rank == Position(log, at, sender)
         then h.rank + 1 else Position(log, at, sender)
  {
    if at.Some? {
      RanksSnoc(log, h, at.value, sender);
      FollowedSnoc(Ranks(log, at.value, sender), h.rank);
    }
  }

  /** Mutations elsewhere do not disturb a list. */
  lemma FollowsOn(g: Group, s: State, s': State, ms: seq<Member>, at: Option<nat>)
    requires Follows(g, s, ms, at) && s'.log == s.log && |s'.past| == |s.past|
    requires forall j :: 0 <= j < |s.past| ==> s.past[j] <= s'.past[j]
    ensures Follows(g, s', ms, at)
  {
    hide Position;
  }

  lemma NewPidNoRepeat(past: seq<seq<Pid>>, j: nat, pid: Pid)
    requires NoRepeats(past) && j < |past| && forall i :: 0 <= i < |past| ==> pid !in past[i]
    ensures NoRepeats(past[j := past[j] + [pid]])
  {
  }

  lemma MutateEnvelopes(p: Primitives, g: Group, s: State, a: Action)
    requires Inv(g, s) && Enabled(p, g, s, a) && a.Mutate?
    ensures forall e :: e in Next(p, g, s, a).sent ==> EnvelopeOk(g, Next(p, g, s, a), e)
  {
    hide Mutated, Follows, NoRepeats;
    var s' := Next(p, g, s, a);
    var nt := NoticeOf(g, s, a.j, s'.rows[a.j]);
    EveryOtherHolderIsTold(g, s, a.j, nt);
    var ns := Notices(g.nodes[a.j], s.rows[a.j].members, nt);
    forall e | e in s'.sent
      ensures EnvelopeOk(g, s', e)
    {
      if e !in s.sent {
        var i :| 0 <= i < |ns| && e == Envelope(ns[i].0, ns[i].1, a.j, |s.past[a.j]| - 1);
        assert ns[i] in ns;
      }
    }
  }

  lemma MutateKeeps(p: Primitives, g: Group, s: State, a: Action)
    requires Inv(g, s) && Enabled(p, g, s, a) && a.Mutate?
    ensures Inv(g, Next(p, g, s, a))
  {
    hide Follows, NoRepeats, EnvelopeOk, Envelopes;
    var s' := Next(p, g, s, a);
    MutateEnvelopes(p, g, s, a);
    NewPidNoRepeat(s.past, a.j, s'.rows[a.j].pid);
    forall i | 0 <= i < |s'.rows|
      ensures Follows(g, s', s'.rows[i].members, Some(i))
    {
      FollowsOn(g, s, s', s.rows[i].members, Some(i));
    }
    FollowsOn(g, s, s', s.manifest.members, g.owner);
  }

  /** A notice moves exactly the entry that stands where it starts from. */
  lemma RotatedFollows(g: Group, s: State, ms: seq<Member>, i: nat, e: Envelope, log': seq<Handling>)
    requires WellFormed(g) && NoRepeats(s.past) && EnvelopeOk(g, s, e) && Follows(g, s, ms, Some(i))
    requires log' == s.log + [Handling(i, e.sender, e.rank)]
    ensures Follows(g, s.(log := log'), Rotated(ms, e.notice.oldPid, e.notice.newPid, e.notice.newEndpoint), Some(i))
  {
    hide Position;
    forall j | 0 <= j < |ms|
      ensures Position(log', Some(i), j)
        == if j == e.sender && e.rank == Position(s.log, Some(i), j) then e.rank + 1 else Position(s.log, Some(i), j)
    {
      PositionSnoc(s.log, Handling(i, e.sender, e.rank), Some(i), j);
    }
  }

  /** Other nodes' lists stay where they are. */
  lemma ElsewhereFollows(g: Group, s: State, ms: seq<Member>, at: Option<nat>, h: Handling)
    requires Follows(g, s, ms, at) && at != Some(h.at)
    ensures Follows(g, s.(log := s.log + [h]), ms, at)
  {
    hide Position;
    forall j | 0 <= j < |ms|
      ensures Position(s.log + [h], at, j) == Position(s.log, at, j)
    {
      PositionSnoc(s.log, h, at, j);
    }
  }

  lemma SamePastFollows(g: Group, s: State, s': State, ms: seq<Member>, at: Option<nat>)
    requires Follows(g, s, ms, at) && s'.past == s.past && s'.log == s.log
    ensures Follows(g, s', ms, at)
  {
  }

  lemma HandleKeeps(p: Primitives, g: Group, s: State, a: Action)
    requires Inv(g, s) && Enabled(p, g, s, a) && a.Handle?
    ensures Inv(g, Next(p, g, s, a))
  {
    hide Follows, NoRepeats, Rotated;
    var s' := Next(p, g, s, a);
    var e, i := s.sent[a.m], HolderAt(g, s.sent[a.m].to);
    var h := Handling(i, e.sender, e.rank);
    var s1 := s.(log := s'.log);
    assert e in s.sent;
    forall k | 0 <= k < |s'.rows|
      ensures Follows(g, s', s'.rows[k].members, Some(k))
    {
      if k == i {
        RotatedFollows(g, s, s.rows[i].members, i, e, s'.log);
      } else {
        ElsewhereFollows(g, s, s.rows[k].members, Some(k), h);
      }
      SamePastFollows(g, s1, s', s'.rows[k].members, Some(k));
    }
    if g.owner == Some(i) {
      RotatedFollows(g, s, s.manifest.members, i, e, s'.log);
    } else {
      ElsewhereFollows(g, s, s.manifest.members, g.owner, h);
    }
    SamePastFollows(g, s1, s', s'.manifest.members, g.owner);
  }

  lemma NextKeepsInv(p: Primitives, g: Group, s: State, a: Action)
    requires Inv(g, s) && Enabled(p, g, s, a)
    ensures Inv(g, Next(p, g, s, a))
  {
    hide *;
    match a
    case Mutate(_, _) => MutateKeeps(p, g, s, a);
    case Handle(_) => HandleKeeps(p, g, s, a);
  }

  // --- Whole runs ---

  /** Runs start with the group just shared out: everybody knows everybody's first pseudonym. */
  ghost predicate Start(g: Group, s: State) {
    Inv(g, s) && s.sent == [] && s.log == [] && forall j :: 0 <= j < |s.past| ==> |s.past[j]| == 1
  }

  ghost predicate StepAt(p: Primitives, g: Group, states: seq<State>, actions: seq<Action>, i: nat)
    requires i < |actions| && |states| == |actions| + 1
  {
    Enabled(p, g, states[i], actions[i]) && states[i + 1] == Next(p, g, states[i], actions[i])
  }

  ghost predicate IsRun(p: Primitives, g: Group, states: seq<State>, actions: seq<Action>) {
    && |states| == |actions| + 1 && Start(g, states[0])
    && forall i :: 0 <= i < |actions| ==> StepAt(p, g, states, actions, i)
  }

  /** Nobody handles a notice of its own. */
  ghost predicate NoneOfItsOwn(log: seq<Handling>) {
    forall h :: h in log ==> h.at != h.sender
  }

  lemma NextNotItsOwn(p: Primitives, g: Group, s: State, a: Action)
    requires Inv(g, s) && Enabled(p, g, s, a) && NoneOfItsOwn(s.log)
    ensures NoneOfItsOwn(Next(p, g, s, a).log)
  {
    hide Follows, NoRepeats, Rotated, Mutated, Envelopes;
    if a.Handle? {
      assert s.sent[a.m] in s.sent;
    }
  }

  lemma {:induction false} RunInv(p: Primitives, g: Group, states: seq<State>, actions: seq<Action>, i: nat)
    requires IsRun(p, g, states, actions) && i < |states|
    ensures Inv(g, states[i]) && NoneOfItsOwn(states[i].log)
  {
    hide Inv, Enabled, Next;
    if i > 0 {
      RunInv(p, g, states, actions, i - 1);
      assert StepAt(p, g, states, actions, i - 1);
      NextKeepsInv(p, g, states[i - 1], actions[i - 1]);
      NextNotItsOwn(p, g, states[i - 1], actions[i - 1]);
    }
  }

  /** Histories and logs only grow. */
  ghost predicate Later(s: State, s': State) {
    && |s.past| == |s'.past| && s.log <= s'.log
    && forall j :: 0 <= j < |s.past| ==> s.past[j] <= s'.past[j]
  }

  lemma {:induction false} RunLater(p: Primitives, g: Group, states: seq<State>, actions: seq<Action>, a: nat, b: nat)
    requires IsRun(p, g, states, actions) && a <= b < |states|
    ensures Later(states[a], states[b])
  {
    hide Start, Mutated, Rotated, Envelopes;
    if a < b {
      RunLater(p, g, states, actions, a, b - 1);
      assert StepAt(p, g, states, actions, b - 1);
    }
  }

  lemma {:induction false} PositionGrows(log: seq<Handling>, n: nat, at: Option<nat>, sender: nat)
    requires n <= |log|
    ensures Position(log[..n], at, sender) <= Position(log, at, sender)
    decreases |log|
  {
    if n == |log| {
      assert log[..n] == log;
    } else {
      var before := log[..|log| - 1];
      assert before[..n] == log[..n] && before + [log[|log| - 1]] == log;
      PositionGrows(before, n, at, sender);
      PositionSnoc(before, log[|log| - 1], at, sender);
    }
  }

  ghost predicate MovedOn(past: seq<Pid>, before: Pid, after: Pid) {
    exists k, l :: 0 <= k <= l < |past| && before == past[k] && after == past[l]
  }

  /** The two lists name the same nodes at the same endpoints in the same order, and each entry of
      the later one is the same node's pseudonym from no earlier in its history. */
  ghost predicate NeverBack(past: seq<seq<Pid>>, before: seq<Member>, after: seq<Member>) {
    && |before| == |after| == |past|
    && forall j :: 0 <= j < |after| ==>
         && after[j].nodeId == before[j].nodeId && after[j].endpoint == before[j].endpoint
         && MovedOn(past[j], before[j].pid, after[j].pid)
  }

  lemma FollowsNeverBack(g: Group, s: State, s': State, ms: seq<Member>, ms': seq<Member>, at: Option<nat>)
    requires Later(s, s') && Follows(g, s, ms, at) && Follows(g, s', ms', at)
    ensures NeverBack(s'.past, ms, ms')
  {
    hide Position;
    assert s'.log[..|s.log|] == s.log;
    forall j | 0 <= j < |ms'|
      ensures MovedOn(s'.past[j], ms[j].pid, ms'[j].pid)
    {
      PositionGrows(s'.log, |s.log|, at, j);
      var k, l := Position(s.log, at, j), Position(s'.log, at, j);
      assert s.past[j][k] == s'.past[j][k];
    }
  }

  /** Stale gossip is harmless: whatever is lost, repeated or reordered, no list in the group ever
      names another node, another endpoint or a foreign pseudonym, and no entry ever moves back. */
  lemma StaleGossipIsHarmless(p: Primitives, g: Group, states: seq<State>, actions: seq<Action>, a: nat, b: nat)
    requires IsRun(p, g, states, actions) && a <= b < |states|
    ensures |states[a].rows| == |states[b].rows|
    ensures forall i :: 0 <= i < |states[b].rows| ==>
      NeverBack(states[b].past, states[a].rows[i].members, states[b].rows[i].members)
    ensures NeverBack(states[b].past, states[a].manifest.members, states[b].manifest.members)
  {
    hide IsRun, Later, Follows, NeverBack;
    RunInv(p, g, states, actions, a);
    RunInv(p, g, states, actions, b);
    RunLater(p, g, states, actions, a, b);
    forall i | 0 <= i < |states[b].rows|
      ensures NeverBack(states[b].past, states[a].rows[i].members, states[b].rows[i].members)
    {
      FollowsNeverBack(g, states[a], states[b], states[a].rows[i].members, states[b].rows[i].members, Some(i));
    }
    FollowsNeverBack(g, states[a], states[b], states[a].manifest.members, states[b].manifest.members, g.owner);
  }

  // --- When a list is exact ---

  /** The elements of a occur in b in this order. */
  ghost predicate Subsequence(a: seq<nat>, b: seq<nat>)
    decreases |b|
  {
    a == [] || (b != [] && (Subsequence(a, b[..|b| - 1])
                            || (a[|a| - 1] == b[|b| - 1] && Subsequence(a[..|a| - 1], b[..|b| - 1]))))
  }

  function UpTo(n: nat): (r: seq<nat>)
    ensures |r| == n
  {
    seq(n, i requires 0 <= i < n => i)
  }

  lemma {:induction false} FollowedIff(ranks: seq<nat>, n: nat)
    ensures Followed(ranks) >= n <==> Subsequence(UpTo(n), ranks)
    decreases |ranks|
  {
    if ranks != [] && n > 0 {
      FollowedIff(ranks[..|ranks| - 1], n);
      FollowedIff(ranks[..|ranks| - 1], n - 1);
      assert UpTo(n)[..n - 1] == UpTo(n - 1);
    }
  }

  lemma {:induction false} SubsequenceOfItself(a: seq<nat>)
    ensures Subsequence(a, a)
    decreases |a|
  {
    if a != [] {
      SubsequenceOfItself(a[..|a| - 1]);
    }
  }

  /** The list has the current pseudonym of holder j. */
  ghost predicate Current(s: State, ms: seq<Member>, j: nat) {
    j < |ms| && j < |s.rows| && ms[j].pid == s.rows[j].pid
  }

  lemma CurrentIff(g: Group, s: State, ms: seq<Member>, at: Option<nat>, j: nat)
    requires Inv(g, s) && Follows(g, s, ms, at) && j < |s.rows|
    ensures Current(s, ms, j) <==> Position(s.log, at, j) >= |s.past[j]| - 1
  {
    hide Position, EnvelopeOk;
  }

  /** Gossip is exact precisely where nothing is missing: a holder's list, and the manifest of an
      owner that is a holder, has another holder's current pseudonym if and only if the node has
      handled that holder's rotations 0, 1, 2, ... up to the last one in this order - among
      repeated, late or early ones or not. In particular in-order lossless delivery is exact. */
  lemma GossipIsExact(p: Primitives, g: Group, states: seq<State>, actions: seq<Action>, a: nat, i: nat, j: nat)
    requires IsRun(p, g, states, actions) && a < |states| && i < |states[a].rows| && j < |states[a].rows| && i != j
    ensures |states[a].past| == |states[a].rows| && |states[a].past[j]| > 0
    ensures var s := states[a];
      var all, handled := UpTo(|s.past[j]| - 1), Ranks(s.log, i, j);
      && (Current(s, s.rows[i].members, j) <==> Subsequence(all, handled))
      && (g.owner == Some(i) ==> (Current(s, s.manifest.members, j) <==> Subsequence(all, handled)))
      && (handled == all ==> Subsequence(all, handled))
  {
    hide IsRun, Follows, Current, Followed, Ranks, Subsequence, UpTo, EnvelopeOk, NoRepeats;
    RunInv(p, g, states, actions, a);
    var s := states[a];
    FollowedIff(Ranks(s.log, i, j), |s.past[j]| - 1);
    CurrentIff(g, s, s.rows[i].members, Some(i), j);
    if g.owner == Some(i) {
      CurrentIff(g, s, s.manifest.members, g.owner, j);
    }
    SubsequenceOfItself(UpTo(|s.past[j]| - 1));
  }

  lemma {:induction false} NothingFromItself(log: seq<Handling>, i: nat)
    requires NoneOfItsOwn(log)
    ensures Ranks(log, i, i) == []
    decreases |log|
  {
    if log != [] {
      assert log[|log| - 1] in log;
      NothingFromItself(log[..|log| - 1], i);
    }
  }

  /** Nobody tells a holder about itself, nor a backup's owner about anyone: those entries stay at
      the first pseudonym, and are current only until the first rotation. */
  lemma UntoldEntriesStay(p: Primitives, g: Group, states: seq<State>, actions: seq<Action>, a: nat, j: nat)
    requires IsRun(p, g, states, actions) && a < |states| && j < |states[a].rows|
    ensures |states[a].past| == |states[a].rows| && |states[a].past[j]| > 0
    ensures var s := states[a];
      && j < |s.rows[j].members| && s.rows[j].members[j].pid == s.past[j][0]
      && (Current(s, s.rows[j].members, j) <==> |s.past[j]| == 1)
      && (g.owner == Some(j) || g.owner == None ==>
            && j < |s.manifest.members| && s.manifest.members[j].pid == s.past[j][0]
            && (Current(s, s.manifest.members, j) <==> |s.past[j]| == 1))
  {
    hide IsRun, NoRepeats, EnvelopeOk;
    RunInv(p, g, states, actions, a);
    var s := states[a];
    NothingFromItself(s.log, j);
    CurrentIff(g, s, s.rows[j].members, Some(j), j);
    CurrentIff(g, s, s.manifest.members, g.owner, j);
  }
}
