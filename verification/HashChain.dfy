/** The hash chain behind offline mutations: links are handed out from the tip down, and the
    verifier moves its trusted anchor along by hashing once. The hash is any function. */
module HashChain {
  import opened Wrappers
  import opened Gf256
  import opened Shamir

  type Hash = Bytes -> Bytes

  /** Every link is the hash of the one above it. */
  ghost predicate IsChain(sha: Hash, chain: seq<Bytes>) {
    forall i :: 0 <= i < |chain| - 1 ==> chain[i] == sha(chain[i + 1])
  }

  /** Builds a chain downwards from a random tip; None models a failing random source. */
  method BuildChain(sha: Hash, length: int, tip: Option<Bytes>) returns (r: Option<array<Bytes>>)
    ensures r.None? <==> tip.None?
    ensures r.Some? ==> fresh(r.value) && r.value.Length == (if length < 1 then 1 else length) + 1
    ensures r.Some? ==> IsChain(sha, r.value[..]) && r.value[r.value.Length - 1] == tip.value
  {
    var n := if length < 1 then 1 else length;
    if tip.None? {
      return None;
    }
    var chain := new Bytes[n + 1](_ => []);
    chain[n] := tip.value;
    for i := n downto 0
      invariant chain[n] == tip.value
      invariant forall k :: i <= k < n ==> chain[k] == sha(chain[k + 1])
    {
      chain[i] := sha(chain[i + 1]);
    }
    r := Some(chain);
  }

  function Or(a: byte, b: byte): byte {
    Byte(a.b7 || b.b7, a.b6 || b.b6, a.b5 || b.b5, a.b4 || b.b4, a.b3 || b.b3, a.b2 || b.b2, a.b1 || b.b1, a.b0 || b.b0)
  }

  lemma OrXorZero(d: byte, a: byte, b: byte)
    ensures Or(d, Xor(a, b)) == ZERO <==> d == ZERO && a == b
  {
    hide Xor;
    XorSelf(a);
    if Xor(a, b) == ZERO {
      XorCancel(a, b);
    }
  }

  /** Constant-time comparison of a revealed link with the hash of the trusted one. */
  method VerifyStep(sha: Hash, revealed: Bytes, previouslyTrusted: Bytes) returns (ok: bool)
    ensures ok <==> revealed == sha(previouslyTrusted)
  {
    var h := sha(previouslyTrusted);
    if |h| != |revealed| {
      return false;
    }
    var diff := ZERO;
    for i := 0 to |h|
      invariant diff == ZERO <==> h[..i] == revealed[..i]
    {
      OrXorZero(diff, h[i], revealed[i]);
      assert h[..i + 1] == h[..i] + [h[i]] && revealed[..i + 1] == revealed[..i] + [revealed[i]];
      diff := Or(diff, Xor(h[i], revealed[i]));
    }
    assert h[..|h|] == h && revealed[..|h|] == revealed;
    ok := diff == ZERO;
  }

  /** The holder's side: `next` is the link to hand out, counting down. */
  class ColdChain {
    const chain: seq<Bytes>
    var next: int

    ghost predicate Valid()
      reads this
    {
      -1 <= next < |chain|
    }

    constructor (chain: seq<Bytes>, next: nat)
      requires next < |chain|
      ensures Valid() && this.chain == chain && this.next == next
    {
      this.chain, this.next := chain, next;
    }

    method Consume() returns (seed: Option<Bytes>)
      requires Valid()
      modifies this
      ensures Valid()
      ensures old(next) < 0 ==> seed == None && next == old(next)
      ensures old(next) >= 0 ==> seed == Some(chain[old(next)]) && next == old(next) - 1
    {
      if next < 0 {
        return None;
      }
      seed := Some(chain[next]);
      next := next - 1;
    }
  }

  /** The verifier's side: the anchor after a reveal. */
  function NextAnchor(sha: Hash, anchor: Bytes, revealed: Bytes): Bytes {
    if revealed == sha(anchor) then revealed else anchor
  }

  // --- Both sides over a whole run ---

  datatype Event =
    | Scheduled        // a mutation by an orchestrator seed: no link is used
    | Cold             // a cold mutation: consumes the next link, if any, and sends its reveal
    | Deliver(j: nat)  // the reveal of link j reaches the orchestrator
    | Lose(j: nat)     // the reveal of link j is lost

  datatype State = State(
    next: int,
    revealed: seq<nat>,     // the links handed out, in order
    inFlight: set<nat>,
    delivered: set<nat>,
    anchor: Bytes,
    accepted: nat)

  ghost predicate Enabled(s: State, e: Event) {
    match e
    case Scheduled => true
    case Cold => true
    case Deliver(j) => j in s.inFlight
    case Lose(j) => j in s.inFlight
  }

  /** The tip chain[n] is announced as the anchor and never handed out. */
  function Start(chain: seq<Bytes>): State
    requires |chain| >= 2
  {
    State(|chain| - 2, [], {}, {}, chain[|chain| - 1], 0)
  }

  ghost function Step(sha: Hash, chain: seq<Bytes>, s: State, e: Event): State
    requires Enabled(s, e) && forall j :: j in s.inFlight ==> j < |chain|
  {
    match e
    case Scheduled => s
    case Cold =>
      if s.next < 0 then s
      else s.(next := s.next - 1, revealed := s.revealed + [s.next], inFlight := s.inFlight + {s.next})
    case Deliver(j) =>
      s.(inFlight := s.inFlight - {j}, delivered := s.delivered + {j},
         anchor := NextAnchor(sha, s.anchor, chain[j]),
         accepted := s.accepted + if chain[j] == sha(s.anchor) then 1 else 0)
    case Lose(j) => s.(inFlight := s.inFlight - {j})
  }

  ghost predicate Inv(chain: seq<Bytes>, s: State) {
    && |chain| >= 2
    && -1 <= s.next <= |chain| - 2
    && |s.revealed| == |chain| - 2 - s.next
    && (forall i :: 0 <= i < |s.revealed| ==> s.revealed[i] == |chain| - 2 - i)
    && (forall j :: j in s.inFlight ==> s.next < j <= |chain| - 2)
    && (forall j :: j in s.delivered ==> s.next < j <= |chain| - 2)
    && s.inFlight !! s.delivered
    && s.accepted <= |s.delivered| <= |chain| - 1
    && s.anchor == chain[|chain| - 1 - s.accepted]
  }

  ghost predicate IsRun(sha: Hash, chain: seq<Bytes>, states: seq<State>, events: seq<Event>) {
    && |chain| >= 2 && IsChain(sha, chain)
    && |states| == |events| + 1 && states[0] == Start(chain)
    && forall i :: 0 <= i < |events| ==>
         && Enabled(states[i], events[i])
         && (forall j :: j in states[i].inFlight ==> j < |chain|)
         && states[i + 1] == Step(sha, chain, states[i], events[i])
  }

  lemma {:induction false} BelowSize(s: set<nat>, n: nat)
    requires forall j :: j in s ==> j < n
    ensures |s| <= n
    ensures |s| == n ==> forall j :: 0 <= j < n ==> j in s
  {
    if n == 0 {
      assert s == {};
    } else if n - 1 in s {
      BelowSize(s - {n - 1}, n - 1);
    } else {
      BelowSize(s, n - 1);
    }
  }

  lemma StepKeepsInv(sha: Hash, chain: seq<Bytes>, s: State, e: Event)
    requires IsChain(sha, chain) && Inv(chain, s) && Enabled(s, e)
    ensures Inv(chain, Step(sha, chain, s, e))
  {
    if e.Deliver? {
      BelowSize(s.delivered + {e.j}, |chain| - 1);
      assert |s.delivered + {e.j}| == |s.delivered| + 1;
      assert chain[|chain| - 2 - s.accepted] == sha(s.anchor);
    }
  }

  lemma {:induction false} RunKeepsInv(sha: Hash, chain: seq<Bytes>, states: seq<State>, events: seq<Event>, i: nat)
    requires IsRun(sha, chain, states, events) && i < |states|
    ensures Inv(chain, states[i])
  {
    if i > 0 {
      RunKeepsInv(sha, chain, states, events, i - 1);
      StepKeepsInv(sha, chain, states[i - 1], events[i - 1]);
    }
  }

  ghost function ColdCount(events: seq<Event>): nat {
    if events == [] then 0
    else ColdCount(events[..|events| - 1]) + if events[|events| - 1].Cold? then 1 else 0
  }

  /** The links handed out are n-1, n-2, ..., one per cold mutation, and after the last one a cold
      mutation gets none. */
  lemma {:induction false} LinksOnceInOrder(sha: Hash, chain: seq<Bytes>, states: seq<State>, events: seq<Event>,
                                            i: nat)
    requires IsRun(sha, chain, states, events) && i < |states|
    ensures |states[i].revealed|
      == (if ColdCount(events[..i]) < |chain| - 1 then ColdCount(events[..i]) else |chain| - 1)
    ensures forall k :: 0 <= k < |states[i].revealed| ==> states[i].revealed[k] == |chain| - 2 - k
  {
    RunKeepsInv(sha, chain, states, events, i);
    if i > 0 {
      LinksOnceInOrder(sha, chain, states, events, i - 1);
      RunKeepsInv(sha, chain, states, events, i - 1);
      assert events[..i][..i - 1] == events[..i - 1];
    }
  }

  /** In any run - reveals lost or reordered, scheduled mutations in between - the anchor is the
      link that lies as far below the tip as there were accepted reveals. */
  lemma AnchorCountsAccepted(sha: Hash, chain: seq<Bytes>, states: seq<State>, events: seq<Event>, i: nat)
    requires IsRun(sha, chain, states, events) && i < |states|
    ensures states[i].accepted <= |chain| - 1
    ensures states[i].anchor == chain[|chain| - 1 - states[i].accepted]
  {
    RunKeepsInv(sha, chain, states, events, i);
  }

  ghost predicate Distinct(chain: seq<Bytes>) {
    forall k, l :: 0 <= k < l < |chain| ==> chain[k] != chain[l]
  }

  /** With distinct links, a reveal of link j is accepted if and only if the anchor is the link
      right above it. */
  lemma AcceptedIffNext(sha: Hash, chain: seq<Bytes>, states: seq<State>, events: seq<Event>, i: nat)
    requires IsRun(sha, chain, states, events) && i < |events| && events[i].Deliver?
    requires Distinct(chain)
    ensures events[i].j < |chain| - 1
    ensures states[i + 1].accepted == states[i].accepted + 1 <==> states[i].anchor == chain[events[i].j + 1]
  {
    var s := states[i];
    RunKeepsInv(sha, chain, states, events, i);
    StepKeepsInv(sha, chain, s, events[i]);
    BelowSize(s.delivered + {events[i].j}, |chain| - 1);
    assert |s.delivered + {events[i].j}| == |s.delivered| + 1;
    assert chain[|chain| - 2 - s.accepted] == sha(s.anchor);
  }

  /** No reveal is lost, and they arrive in the order they were sent. */
  ghost predicate LosslessInOrder(states: seq<State>, events: seq<Event>) {
    && |states| == |events| + 1
    && (forall i :: 0 <= i < |events| ==> !events[i].Lose?)
    && forall i, j :: 0 <= i < |events| && events[i].Deliver? && j in states[i].inFlight ==> j <= events[i].j
  }

  /** The links handed out and not yet accepted are exactly those in flight. */
  ghost predicate InStep(chain: seq<Bytes>, s: State) {
    && s.accepted == |s.delivered| <= |chain| - 2 - s.next
    && forall j: int :: j in s.inFlight <==> s.next < j < |chain| - 1 - s.accepted
  }

  lemma InOrderStep(sha: Hash, chain: seq<Bytes>, s: State, e: Event)
    requires IsChain(sha, chain) && Inv(chain, s) && Enabled(s, e) && InStep(chain, s) && !e.Lose?
    requires e.Deliver? ==> forall j :: j in s.inFlight ==> j <= e.j
    ensures InStep(chain, Step(sha, chain, s, e))
  {
    if e.Deliver? {
      var top := |chain| - 2 - s.accepted;
      assert s.next < e.j <= top;
      assert top in s.inFlight;
      assert chain[top] == sha(s.anchor);
    }
  }

  /** Then every reveal that arrives verifies. */
  lemma {:induction false} InOrderAlwaysVerifies(sha: Hash, chain: seq<Bytes>, states: seq<State>, events: seq<Event>,
                                                 i: nat)
    requires IsRun(sha, chain, states, events) && LosslessInOrder(states, events) && i < |states|
    ensures InStep(chain, states[i])
  {
    if i > 0 {
      InOrderAlwaysVerifies(sha, chain, states, events, i - 1);
      RunKeepsInv(sha, chain, states, events, i - 1);
      InOrderStep(sha, chain, states[i - 1], events[i - 1]);
    }
  }

  // --- When the anchor is stuck ---

  /** The one link whose reveal the anchor would accept. */
  function Awaited(chain: seq<Bytes>, s: State): int {
    |chain| - 2 - s.accepted
  }

  /** The link that the anchor waits for was handed out, and its reveal is not on its way: it was
      lost, or its mutation failed before sending it, or it came too early. Or no link is left. */
  ghost predicate Stuck(chain: seq<Bytes>, s: State) {
    Awaited(chain, s) !in s.inFlight && (s.next < Awaited(chain, s) || Awaited(chain, s) < 0)
  }

  lemma StuckStep(sha: Hash, chain: seq<Bytes>, s: State, e: Event)
    requires IsChain(sha, chain) && Distinct(chain) && Inv(chain, s) && Enabled(s, e) && Stuck(chain, s)
    ensures var s' := Step(sha, chain, s, e);
      Stuck(chain, s') && s'.accepted == s.accepted && s'.anchor == s.anchor
  {
    if e.Deliver? {
      BelowSize(s.delivered, |chain| - 1);
      assert Awaited(chain, s) >= 0;
      assert chain[Awaited(chain, s)] == sha(s.anchor);
    }
  }

  /** One reveal that never arrives, or one link used up by a mutation that then fails, and no later
      reveal is ever accepted, however many arrive and in whatever order. */
  lemma {:induction false} StuckForGood(sha: Hash, chain: seq<Bytes>, states: seq<State>, events: seq<Event>,
                                        i: nat, k: nat)
    requires IsRun(sha, chain, states, events) && Distinct(chain) && i <= k < |states| && Stuck(chain, states[i])
    ensures Stuck(chain, states[k]) && states[k].accepted == states[i].accepted && states[k].anchor == states[i].anchor
    decreases k
  {
    if i < k {
      StuckForGood(sha, chain, states, events, i, k - 1);
      RunKeepsInv(sha, chain, states, events, k - 1);
      StuckStep(sha, chain, states[k - 1], events[k - 1]);
    }
  }

  lemma RunSnoc(sha: Hash, chain: seq<Bytes>, states: seq<State>, events: seq<Event>, e: Event)
    requires IsRun(sha, chain, states, events) && Enabled(states[|events|], e)
    ensures forall j :: j in states[|events|].inFlight ==> j < |chain|
    ensures IsRun(sha, chain, states + [Step(sha, chain, states[|events|], e)], events + [e])
  {
    RunKeepsInv(sha, chain, states, events, |events|);
    var states', events' := states + [Step(sha, chain, states[|events|], e)], events + [e];
    forall i | 0 <= i < |events'|
      ensures Enabled(states'[i], events'[i])
      ensures forall j :: j in states'[i].inFlight ==> j < |chain|
      ensures states'[i + 1] == Step(sha, chain, states'[i], events'[i])
    {
      if i < |events| {
        assert states'[i] == states[i] && states'[i + 1] == states[i + 1] && events'[i] == events[i];
      }
    }
  }

  /** In no continuation is another reveal accepted. */
  ghost predicate NothingMoreAccepted(sha: Hash, chain: seq<Bytes>, states: seq<State>, events: seq<Event>)
    requires |states| == |events| + 1
  {
    forall states': seq<State>, events': seq<Event> |
      IsRun(sha, chain, states', events') && states <= states' && events <= events' ::
      states'[|events'|].accepted == states[|events|].accepted
  }

  lemma {:induction false} BetweenSize(s: set<nat>, lo: int, hi: int)
    requires lo <= hi && forall j :: j in s ==> lo < j <= hi
    ensures |s| <= hi - lo
    decreases hi - lo
  {
    if lo == hi {
      assert s == {};
    } else if hi in s {
      BetweenSize(s - {hi}, lo, hi - 1);
    } else {
      BetweenSize(s, lo, hi - 1);
    }
  }

  /** No link is accepted before it is handed out. */
  lemma AwaitedIsNotAhead(chain: seq<Bytes>, s: State)
    requires Inv(chain, s)
    ensures s.next <= Awaited(chain, s)
  {
    BetweenSize(s.delivered, s.next, |chain| - 2);
  }

  lemma HandsOut(sha: Hash, chain: seq<Bytes>, s: State)
    requires Inv(chain, s) && s.next >= 0
    ensures var s' := Step(sha, chain, s, Cold); s.next in s'.inFlight && s'.accepted == s.accepted
  {
  }

  lemma AcceptsAwaited(sha: Hash, chain: seq<Bytes>, s: State)
    requires IsChain(sha, chain) && Inv(chain, s) && Awaited(chain, s) in s.inFlight
    ensures Step(sha, chain, s, Deliver(Awaited(chain, s))).accepted == s.accepted + 1
  {
  }

  /** Where the anchor is not stuck, its link can still be handed out and arrive. */
  lemma AwaitedArrives(sha: Hash, chain: seq<Bytes>, states: seq<State>, events: seq<Event>)
    returns (states': seq<State>, events': seq<Event>)
    requires IsRun(sha, chain, states, events) && !Stuck(chain, states[|events|])
    ensures IsRun(sha, chain, states', events') && states <= states' && events <= events'
    ensures states'[|events'|].accepted == states[|events|].accepted + 1
  {
    hide Inv, Step;
    var s := states[|events|];
    RunKeepsInv(sha, chain, states, events, |events|);
    states', events' := states, events;
    if Awaited(chain, s) !in s.inFlight {
      AwaitedIsNotAhead(chain, s);
      HandsOut(sha, chain, s);
      RunSnoc(sha, chain, states, events, Cold);
      states', events' := states + [Step(sha, chain, s, Cold)], events + [Cold];
    }
    var s1 := states'[|events'|];
    RunKeepsInv(sha, chain, states', events', |events'|);
    AcceptsAwaited(sha, chain, s1);
    var e := Deliver(Awaited(chain, s));
    RunSnoc(sha, chain, states', events', e);
    states', events' := states' + [Step(sha, chain, s1, e)], events' + [e];
  }

  /** With distinct links the anchor never moves again, whatever is still revealed, if and only if
      it is stuck. */
  lemma StuckIff(sha: Hash, chain: seq<Bytes>, states: seq<State>, events: seq<Event>)
    requires IsRun(sha, chain, states, events) && Distinct(chain)
    ensures NothingMoreAccepted(sha, chain, states, events) <==> Stuck(chain, states[|events|])
  {
    hide Stuck, IsChain, Step, Enabled;
    if !Stuck(chain, states[|events|]) {
      var states', events' := AwaitedArrives(sha, chain, states, events);
    } else {
      forall states': seq<State>, events': seq<Event>
        | IsRun(sha, chain, states', events') && states <= states' && events <= events'
        ensures states'[|events'|].accepted == states[|events|].accepted
      {
        StuckForGood(sha, chain, states', events', |events|, |events'|);
      }
    }
  }
}
