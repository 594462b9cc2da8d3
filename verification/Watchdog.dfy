/** The watchdog: it scores local signals every tick, asks for two confirming ticks in a row before
    a full reaction, and stays quiet during the cooldown after a reaction. Times are nanoseconds
    since the zero time. */
module Watchdog {
  import opened Wrappers

  datatype Signals = Signals(remoteSession: bool, debuggerAttached: bool, reparented: bool)

  datatype Severity = Suspect | Confirmed

  const WEIGHT_REMOTE_SESSION := 15
  const WEIGHT_DEBUGGER_ATTACHED := 60
  const WEIGHT_REPARENTED := 10
  const SCORE_SUSPECT := 20
  const SCORE_CONFIRM := 55
  const CONFIRM_STREAK := 2
  const SECOND := 1_000_000_000

  function Score(s: Signals): nat {
    (if s.remoteSession then WEIGHT_REMOTE_SESSION else 0)
    + (if s.debuggerAttached then WEIGHT_DEBUGGER_ATTACHED else 0)
    + (if s.reparented then WEIGHT_REPARENTED else 0)
  }

  function Cooldown(severity: Severity): nat {
    if severity == Confirmed then 20 * SECOND else 10 * SECOND
  }

  datatype State = State(lastScore: nat, confirmedTicks: nat, cooldownUntil: nat)

  /** One tick reads the clock once to test the cooldown and again when it reacts. */
  datatype Event =
    | Tick(signals: Signals, now: nat, reactNow: nat)
    | SimulateAttack(reactNow: nat)

  /** The streak counter after the tick's own update. */
  function Streak(s: State, e: Event): nat
    requires e.Tick?
  {
    if Score(e.signals) >= SCORE_CONFIRM then s.confirmedTicks + 1 else 0
  }

  function Reaction(s: State, e: Event): Option<Severity> {
    match e
    case SimulateAttack(_) => Some(Confirmed)
    case Tick(signals, now, _) =>
      if now < s.cooldownUntil then None
      else if Streak(s, e) >= CONFIRM_STREAK then Some(Confirmed)
      else if Score(signals) >= SCORE_SUSPECT then Some(Suspect)
      else None
  }

  function Next(s: State, e: Event): State {
    var score := if e.Tick? then Score(e.signals) else s.lastScore;
    match Reaction(s, e)
    case Some(severity) => State(score, 0, e.reactNow + Cooldown(severity))
    case None => State(score, if e.Tick? then Streak(s, e) else s.confirmedTicks, s.cooldownUntil)
  }

  class Watchdog {
    var lastScore: nat
    var confirmedTicks: nat
    var cooldownUntil: nat

    function Value(): State
      reads this
    {
      State(lastScore, confirmedTicks, cooldownUntil)
    }

    constructor ()
      ensures Value() == State(0, 0, 0)
    {
      lastScore, confirmedTicks, cooldownUntil := 0, 0, 0;
    }

    method React(severity: Severity, now: nat)
      modifies this
      ensures Value() == State(old(lastScore), 0, now + Cooldown(severity))
      ensures cooldownUntil == now + if severity == Confirmed then 20_000_000_000 else 10_000_000_000
    {
      var cooldown := 10 * SECOND;
      if severity == Confirmed {
        cooldown := 20 * SECOND;
      }
      cooldownUntil := now + cooldown;
      confirmedTicks := 0;
    }

    /** `reactNow` is the clock when the reaction, if any, starts. */
    method Tick(s: Signals, now: nat, reactNow: nat) returns (reaction: Option<Severity>)
      modifies this
      ensures Value() == Next(old(Value()), Event.Tick(s, now, reactNow))
      ensures reaction == Reaction(old(Value()), Event.Tick(s, now, reactNow))
      ensures lastScore
        == (if s.remoteSession then 15 else 0) + (if s.debuggerAttached then 60 else 0)
           + if s.reparented then 10 else 0
      ensures reaction
        == if now < old(cooldownUntil) then None
           else if s.debuggerAttached && old(confirmedTicks) >= 1 then Some(Confirmed)
           else if s.debuggerAttached || (s.remoteSession && s.reparented) then Some(Suspect)
           else None
      ensures reaction.Some? ==>
        && confirmedTicks == 0
        && cooldownUntil == reactNow + if reaction == Some(Confirmed) then 20_000_000_000 else 10_000_000_000
      ensures reaction.None? ==>
        && confirmedTicks == (if s.debuggerAttached then old(confirmedTicks) + 1 else 0)
        && cooldownUntil == old(cooldownUntil)
    {
      var score := 0;
      if s.remoteSession {
        score := score + WEIGHT_REMOTE_SESSION;
      }
      if s.debuggerAttached {
        score := score + WEIGHT_DEBUGGER_ATTACHED;
      }
      if s.reparented {
        score := score + WEIGHT_REPARENTED;
      }
      lastScore := score;
      var inCooldown := now < cooldownUntil;
      if score >= SCORE_CONFIRM {
        confirmedTicks := confirmedTicks + 1;
      } else {
        confirmedTicks := 0;
      }
      var confirmed := confirmedTicks >= CONFIRM_STREAK;
      var suspect := score >= SCORE_SUSPECT;
      reaction := None;
      if inCooldown {
        return;
      }
      if confirmed {
        React(Confirmed, reactNow);
        reaction := Some(Confirmed);
      } else if suspect {
        React(Suspect, reactNow);
        reaction := Some(Suspect);
      }
    }

    method SimulateAttack(reactNow: nat)
      modifies this
      ensures Value() == Next(old(Value()), Event.SimulateAttack(reactNow))
      ensures Value() == State(old(lastScore), 0, reactNow + 20_000_000_000)
    {
      React(Confirmed, reactNow);
    }
  }

  // --- Whole runs ---

  ghost predicate IsRun(states: seq<State>, events: seq<Event>) {
    && |states| == |events| + 1 && states[0] == State(0, 0, 0)
    && forall i :: 0 <= i < |events| ==> states[i + 1] == Next(states[i], events[i])
  }

  ghost predicate Reacted(states: seq<State>, events: seq<Event>, i: nat)
    requires i < |events| && i < |states|
  {
    Reaction(states[i], events[i]).Some?
  }

  /** Event i is a tick with a debugger attached that fell into a cooldown. */
  ghost predicate MaskedConfirmingTick(states: seq<State>, events: seq<Event>, i: nat)
    requires i < |events| && i < |states|
  {
    events[i].Tick? && events[i].signals.debuggerAttached && events[i].now < states[i].cooldownUntil
  }

  lemma StreakIffMaskedTick(states: seq<State>, events: seq<Event>, i: nat)
    requires IsRun(states, events) && i < |states|
    ensures states[i].confirmedTicks > 0 <==> i > 0 && MaskedConfirmingTick(states, events, i - 1)
  {
    if i > 0 {
      assert states[i] == Next(states[i - 1], events[i - 1]);
    }
  }

  /** A tick reacts if and only if no cooldown is in force and a debugger is attached, or a remote
      session comes together with reparenting. */
  lemma ReactsIff(states: seq<State>, events: seq<Event>, i: nat)
    requires IsRun(states, events) && i < |events| && events[i].Tick?
    ensures var s := events[i].signals;
      Reacted(states, events, i) <==>
        events[i].now >= states[i].cooldownUntil && (s.debuggerAttached || (s.remoteSession && s.reparented))
  {
  }

  /** It confirms an incident if and only if a debugger is attached, and was so at the event right
      before, a tick that a cooldown still masked. */
  lemma ConfirmedIff(states: seq<State>, events: seq<Event>, i: nat)
    requires IsRun(states, events) && i < |events| && events[i].Tick?
    ensures Reaction(states[i], events[i]) == Some(Confirmed) <==>
      && events[i].now >= states[i].cooldownUntil && events[i].signals.debuggerAttached
      && i > 0 && events[i - 1].Tick? && events[i - 1].signals.debuggerAttached
      && events[i - 1].now < states[i - 1].cooldownUntil
  {
    StreakIffMaskedTick(states, events, i);
  }

  /** The cooldown ends ten or twenty seconds after the last reaction; without one there is none. */
  lemma {:induction false} CooldownHasCause(states: seq<State>, events: seq<Event>, i: nat) returns (j: nat)
    requires IsRun(states, events) && i < |states| && exists k :: 0 <= k < i && Reacted(states, events, k)
    ensures j < i && Reacted(states, events, j) && forall k :: j < k < i ==> !Reacted(states, events, k)
    ensures states[i].cooldownUntil
      == events[j].reactNow + if Reaction(states[j], events[j]) == Some(Confirmed) then 20_000_000_000
                              else 10_000_000_000
  {
    assert states[i] == Next(states[i - 1], events[i - 1]);
    if Reacted(states, events, i - 1) {
      j := i - 1;
    } else {
      j := CooldownHasCause(states, events, i - 1);
    }
  }

  lemma {:induction false} NoCauseNoCooldown(states: seq<State>, events: seq<Event>, i: nat)
    requires IsRun(states, events) && i < |states| && forall k :: 0 <= k < i ==> !Reacted(states, events, k)
    ensures states[i].cooldownUntil == 0
  {
    if i > 0 {
      NoCauseNoCooldown(states, events, i - 1);
      assert !Reacted(states, events, i - 1) && states[i] == Next(states[i - 1], events[i - 1]);
    }
  }

  /** A tick confirms an incident only right after another confirming tick that fell inside the
      cooldown of an earlier reaction. */
  lemma ConfirmedFollowsMaskedTick(states: seq<State>, events: seq<Event>, i: nat) returns (j: nat)
    requires IsRun(states, events) && i < |events| && events[i].Tick?
    requires Reaction(states[i], events[i]) == Some(Confirmed)
    ensures i > 0 && MaskedConfirmingTick(states, events, i - 1)
    ensures j < i - 1 && Reacted(states, events, j)
    ensures forall k :: j < k < i ==> !Reacted(states, events, k)
    ensures events[i - 1].now
      < events[j].reactNow + if Reaction(states[j], events[j]) == Some(Confirmed) then 20_000_000_000
                             else 10_000_000_000
  {
    ConfirmedIff(states, events, i);
    if forall k :: 0 <= k < i - 1 ==> !Reacted(states, events, k) {
      NoCauseNoCooldown(states, events, i - 1);
    }
    j := CooldownHasCause(states, events, i - 1);
    assert !Reacted(states, events, i - 1);
  }

  /** So without simulated attacks the first reaction of a run is never a confirmed one. */
  lemma FirstReactionNotConfirmed(states: seq<State>, events: seq<Event>, i: nat)
    requires IsRun(states, events) && i < |events|
    requires forall k :: 0 <= k < |events| ==> events[k].Tick?
    requires forall k :: 0 <= k < i ==> !Reacted(states, events, k)
    ensures Reaction(states[i], events[i]) != Some(Confirmed)
  {
    if Reaction(states[i], events[i]) == Some(Confirmed) {
      var j := ConfirmedFollowsMaskedTick(states, events, i);
    }
  }

  // --- Reaction rate ---

  /** The clock readings of a run never go back. */
  ghost predicate ClockMonotone(events: seq<Event>) {
    && (forall i :: 0 <= i < |events| && events[i].Tick? ==> events[i].now <= events[i].reactNow)
    && (forall i, j :: 0 <= i < j < |events| ==>
          events[i].reactNow <= if events[j].Tick? then events[j].now else events[j].reactNow)
  }

  /** The times of the reactions among the first n events, or of the confirmed ones only. */
  ghost function ReactionTimes(states: seq<State>, events: seq<Event>, onlyConfirmed: bool, n: nat): seq<int>
    requires n <= |events| && n <= |states|
  {
    if n == 0 then []
    else
      var before := ReactionTimes(states, events, onlyConfirmed, n - 1);
      var r := Reaction(states[n - 1], events[n - 1]);
      if r == Some(Confirmed) || (r.Some? && !onlyConfirmed) then before + [events[n - 1].reactNow] else before
  }

  ghost predicate Spaced(times: seq<int>, gap: int) {
    forall i :: 0 <= i < |times| - 1 ==> times[i] + gap <= times[i + 1]
  }

  /** How many of the times lie between `from` and `from + length`. */
  ghost function CountIn(times: seq<int>, from: int, length: int): nat {
    if times == [] then 0
    else CountIn(times[..|times| - 1], from, length) + if from <= times[|times| - 1] <= from + length then 1 else 0
  }

  /** Spaced times: the last of k times in a window lies k - 1 gaps after the window's start. */
  lemma {:induction false} CountSpread(times: seq<int>, gap: int, from: int, length: int)
    requires Spaced(times, gap) && gap > 0 && length >= 0
    ensures CountIn(times, from, length) > 0 ==>
      && times != [] && from + gap * (CountIn(times, from, length) - 1) <= times[|times| - 1]
      && gap * (CountIn(times, from, length) - 1) <= length
    decreases |times|
  {
    if times != [] {
      var before := times[..|times| - 1];
      CountSpread(before, gap, from, length);
      var k := CountIn(before, from, length);
      if k > 0 {
        assert before[|before| - 1] + gap <= times[|times| - 1];
        assert gap * k == gap * (k - 1) + gap;
      }
    }
  }

  /** Between a reaction and the next one lies at least its cooldown. */
  lemma {:induction false} TimesSpaced(states: seq<State>, events: seq<Event>, onlyConfirmed: bool, n: nat)
    requires IsRun(states, events) && ClockMonotone(events) && n <= |events|
    requires forall k :: 0 <= k < |events| ==> events[k].Tick?
    ensures Spaced(ReactionTimes(states, events, onlyConfirmed, n), if onlyConfirmed then 20 * SECOND else 10 * SECOND)
    ensures var times := ReactionTimes(states, events, onlyConfirmed, n);
      times != [] ==>
        times[|times| - 1] + (if onlyConfirmed then 20 * SECOND else 10 * SECOND) <= states[n].cooldownUntil
  {
    if n > 0 {
      TimesSpaced(states, events, onlyConfirmed, n - 1);
      assert states[n] == Next(states[n - 1], events[n - 1]);
    }
  }

  /** In any window of a run without simulated attacks there is at most one reaction per ten
      seconds, plus one, and at most one confirmed reaction per twenty seconds, plus one. */
  lemma ReactionRate(states: seq<State>, events: seq<Event>, from: int, length: int)
    requires IsRun(states, events) && ClockMonotone(events) && length >= 0
    requires forall k :: 0 <= k < |events| ==> events[k].Tick?
    ensures CountIn(ReactionTimes(states, events, false, |events|), from, length) <= length / 10_000_000_000 + 1
    ensures CountIn(ReactionTimes(states, events, true, |events|), from, length) <= length / 20_000_000_000 + 1
  {
    TimesSpaced(states, events, false, |events|);
    TimesSpaced(states, events, true, |events|);
    CountSpread(ReactionTimes(states, events, false, |events|), 10 * SECOND, from, length);
    CountSpread(ReactionTimes(states, events, true, |events|), 20 * SECOND, from, length);
  }

  lemma {:induction false} CooldownWithinTwenty(states: seq<State>, events: seq<Event>, i: nat)
    requires IsRun(states, events) && ClockMonotone(events) && i < |events|
    ensures states[i].cooldownUntil <= events[i].reactNow + 20 * SECOND
  {
    if exists k :: 0 <= k < i && Reacted(states, events, k) {
      var j := CooldownHasCause(states, events, i);
      assert events[j].reactNow <= events[i].reactNow;
    } else {
      NoCauseNoCooldown(states, events, i);
    }
  }

  /** Simulated attacks included, the end of the cooldown never moves back. */
  lemma CooldownNeverShrinks(states: seq<State>, events: seq<Event>, i: nat)
    requires IsRun(states, events) && ClockMonotone(events) && i < |events|
    ensures states[i].cooldownUntil <= states[i + 1].cooldownUntil
  {
    CooldownWithinTwenty(states, events, i);
    assert states[i + 1] == Next(states[i], events[i]);
  }
}
