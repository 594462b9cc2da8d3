/** Exactly when the system keeps being a map from names to bytes, however a run goes on. */
module Overlaps {
  import opened Wrappers
  import opened Ids
  import opened Store
  import opened Ratchet
  import opened Custody
  import opened Refinement
  import opened CustodyRuns
  import opened RunBuilding

  /** At the end of the run every name holds what was last written under it. */
  ghost predicate MapNow(r: Run) {
    && |r.states| == |r.actions| + 1
    && forall n, name :: Value(Last(r), n, name) == LastWritten(r.states, r.actions, |r.actions|, n, name)
  }

  /** And will, whatever happens next, until a user writes again. */
  ghost predicate MapForever(p: Primitives, dir: Directory, r: Run) {
    forall r' :: ValidRun(p, dir, r') && Onward(r, r') ==> MapNow(r')
  }

  lemma {:induction false} SameLastWritten(r: Run, r': Run, i: nat, n: NodeId, name: Name)
    requires |r.states| == |r.actions| + 1 && |r'.states| == |r'.actions| + 1
    requires r.states <= r'.states && r.actions <= r'.actions && i <= |r.actions|
    ensures LastWritten(r'.states, r'.actions, i, n, name) == LastWritten(r.states, r.actions, i, n, name)
  {
    hide IsUserCommit, Written;
    if i > 0 {
      SameLastWritten(r, r', i - 1, n, name);
    }
  }

  /** Nothing is written on the way onward. */
  lemma {:induction false} NothingWritten(r: Run, r': Run, i: nat, n: NodeId, name: Name)
    requires Onward(r, r') && |r.actions| <= i <= |r'.actions|
    ensures LastWritten(r'.states, r'.actions, i, n, name) == LastWritten(r.states, r.actions, |r.actions|, n, name)
  {
    hide IsUserCommit, Written;
    if i == |r.actions| {
      SameLastWritten(r, r', i, n, name);
    } else {
      NothingWritten(r, r', i - 1, n, name);
    }
  }

  lemma NotWritten(w: World, a: Action, n: NodeId, name: Name)
    requires !IsUserCommit(w, a)
    ensures ValueAfter(w, a, n, name) == Value(w, n, name)
  {
    hide Value;
  }

  /** While the pending operations agree with what is stored, no step onward changes any bytes. */
  lemma {:induction false} AgreeOnward(p: Primitives, dir: Directory, r: Run, r': Run, i: nat)
    requires ValidRun(p, dir, r') && Onward(r, r') && |r.actions| <= i <= |r'.actions| && Agree(Last(r))
    ensures Agree(r'.states[i]) && forall n, name :: Value(r'.states[i], n, name) == Value(Last(r), n, name)
  {
    hide Inv, Enabled, Next, Agree, Value, IsUserCommit;
    if i > |r.actions| {
      AgreeOnward(p, dir, r, r', i - 1);
      RunInv(p, dir, r'.states, r'.actions, i - 1);
      assert StepAt(p, dir, r'.states, r'.actions, i - 1);
      StepAgree(p, dir, r'.states[i - 1], r'.actions[i - 1]);
      forall n, name
        ensures Value(r'.states[i], n, name) == Value(Last(r), n, name)
      {
        StepValue(p, dir, r'.states[i - 1], r'.actions[i - 1], n, name);
        NotWritten(r'.states[i - 1], r'.actions[i - 1], n, name);
      }
    }
  }

  lemma NothingWrittenAtAll(r: Run, r': Run, n: NodeId, name: Name)
    requires Onward(r, r')
    ensures LastWritten(r'.states, r'.actions, |r'.actions|, n, name)
      == LastWritten(r.states, r.actions, |r.actions|, n, name)
  {
    NothingWritten(r, r', |r'.actions|, n, name);
  }

  lemma MapGoesOn(p: Primitives, dir: Directory, r: Run, r': Run)
    requires ValidRun(p, dir, r') && Onward(r, r') && MapNow(r) && Agree(Last(r))
    ensures MapNow(r')
  {
    hide IsRun, Value, LastWritten, Agree, IsUserCommit;
    AgreeOnward(p, dir, r, r', |r'.actions|);
    forall n, name
      ensures Value(Last(r'), n, name) == LastWritten(r'.states, r'.actions, |r'.actions|, n, name)
    {
      NothingWrittenAtAll(r, r', n, name);
    }
  }

  /** The map holds for good if and only if it holds now and every pending operation that would
      write bytes carries the ones now stored under its name. */
  lemma MapForeverIff(p: Primitives, dir: Directory, r: Run)
    requires ValidRun(p, dir, r)
    ensures MapForever(p, dir, r) <==> MapNow(r) && Agree(Last(r))
  {
    hide IsRun, Value, Cargo, Target, LastWritten, Onward;
    NothingYetDone(r);
    if MapForever(p, dir, r) {
      assert ValidRun(p, dir, r) && Onward(r, r);
      forall id | id in Last(r).ops && Target(Last(r).ops[id]).Some?
        ensures Cargo(Last(r), Last(r).ops[id])
          == Value(Last(r), Target(Last(r).ops[id]).value.0, Target(Last(r).ops[id]).value.1)
      {
        var r' := FinishOp(p, dir, r, id);
        NothingWrittenAtAll(r, r', Target(Last(r).ops[id]).value.0, Target(Last(r).ops[id]).value.1);
      }
    }
    if MapNow(r) && Agree(Last(r)) {
      forall r' | ValidRun(p, dir, r') && Onward(r, r')
        ensures MapNow(r')
      {
        MapGoesOn(p, dir, r, r');
      }
    }
  }

  /** A user's commit keeps it so if and only if nothing pending carries other bytes for the name -
      which can be read off the pending operations before the commit. */
  lemma CommitKeepsMapIff(p: Primitives, dir: Directory, r: Run, a: Action)
    requires ValidRun(p, dir, r) && MapForever(p, dir, r) && Enabled(p, dir, Last(r), a) && IsUserCommit(Last(r), a)
    ensures MapForever(p, dir, Then(p, dir, r, a)) <==> Quiet(Last(r), a)
  {
    hide IsRun, Inv, Enabled, Next, MapForever, Agree, Quiet, Value;
    var r' := Then(p, dir, r, a);
    OneStep(p, dir, r, a);
    LastInv(p, dir, r);
    MapForeverIff(p, dir, r);
    MapForeverIff(p, dir, r');
    UserCommitAgrees(p, dir, Last(r), a);
    forall n, name
      ensures Value(Last(r'), n, name) == LastWritten(r'.states, r'.actions, |r'.actions|, n, name)
    {
      StepValue(p, dir, Last(r), a, n, name);
      SameLastWritten(r, r', |r.actions|, n, name);
    }
  }

  /** The run up to its i-th state. */
  ghost function Prefix(r: Run, i: nat): Run
    requires i <= |r.actions| && |r.states| == |r.actions| + 1
  {
    Run(r.states[..i + 1], r.actions[..i])
  }

  lemma PrefixRuns(p: Primitives, dir: Directory, r: Run, i: nat)
    requires ValidRun(p, dir, r) && i <= |r.actions|
    ensures ValidRun(p, dir, Prefix(r, i)) && Last(Prefix(r, i)) == r.states[i]
    ensures i < |r.actions| ==>
      Enabled(p, dir, r.states[i], r.actions[i]) && Prefix(r, i + 1) == Then(p, dir, Prefix(r, i), r.actions[i])
  {
    hide Enabled, Next, Init;
    forall j | 0 <= j < i
      ensures StepAt(p, dir, Prefix(r, i).states, Prefix(r, i).actions, j)
    {
      assert StepAt(p, dir, r.states, r.actions, j);
    }
    if i < |r.actions| {
      assert StepAt(p, dir, r.states, r.actions, i);
      assert r.states[..i + 2] == r.states[..i + 1] + [r.states[i + 1]];
      assert r.actions[..i + 1] == r.actions[..i] + [r.actions[i]];
    }
  }

  lemma OrderlyPrefixIsMap(p: Primitives, dir: Directory, r: Run, i: nat)
    requires ValidRun(p, dir, r) && i <= |r.actions| && Orderly(r.states, r.actions)
    ensures MapForever(p, dir, Prefix(r, i))
  {
    hide IsRun, Enabled, Next, MapForever, Agree, Value, LastWritten, Orderly;
    PrefixRuns(p, dir, r, i);
    SystemIsMap(p, dir, r.states, r.actions, i);
    forall n, name
      ensures Value(Last(Prefix(r, i)), n, name) == LastWritten(Prefix(r, i).states, Prefix(r, i).actions, i, n, name)
    {
      SameLastWritten(Prefix(r, i), r, i, n, name);
    }
    MapForeverIff(p, dir, Prefix(r, i));
  }

  /** Over a whole run: the system is a map at every point, and would stay one however the run went
      on from there, if and only if no user write ever commits while a reshare or a manifest
      rewrite with other bytes for its name is pending. */
  lemma AlwaysMapIff(p: Primitives, dir: Directory, r: Run)
    requires ValidRun(p, dir, r)
    ensures (forall i :: 0 <= i <= |r.actions| ==> MapForever(p, dir, Prefix(r, i))) <==> Orderly(r.states, r.actions)
  {
    hide IsRun, Enabled, Next, MapForever, Quiet, IsUserCommit, Prefix, Agree, Value, LastWritten;
    if Orderly(r.states, r.actions) {
      forall i | 0 <= i <= |r.actions|
        ensures MapForever(p, dir, Prefix(r, i))
      {
        OrderlyPrefixIsMap(p, dir, r, i);
      }
    }
    if forall i :: 0 <= i <= |r.actions| ==> MapForever(p, dir, Prefix(r, i)) {
      forall i | 0 <= i < |r.actions| && IsUserCommit(r.states[i], r.actions[i])
        ensures Quiet(r.states[i], r.actions[i])
      {
        PrefixRuns(p, dir, r, i);
        CommitKeepsMapIff(p, dir, Prefix(r, i), r.actions[i]);
      }
    }
  }

  // --- The lost write ---

  /** A user's write that overlaps a pending operation with other bytes - however early that
      operation is, if it can still go through - can be lost without any user writing again. */
  lemma OverlappedWriteIsLost(p: Primitives, dir: Directory, r: Run, a: Action) returns (r': Run)
    requires ValidRun(p, dir, r) && Enabled(p, dir, Last(r), a) && IsUserCommit(Last(r), a) && !Quiet(Last(r), a)
    ensures ValidRun(p, dir, r') && Onward(Then(p, dir, r, a), r')
    ensures Value(Last(r'), Last(r).ops[a.id].owner, Last(r).ops[a.id].name) != Written(Last(r), a)
  {
    hide IsRun, Inv, Onward, Value, Cargo, PutManifest, NewManifest, Extends;
    var w, r1 := Last(r), Then(p, dir, r, a);
    var id :| id in w.ops && id != a.id && Target(w.ops[id]) == Some((w.ops[a.id].owner, w.ops[a.id].name))
      && Cargo(w, w.ops[id]) != Written(w, a);
    LastInv(p, dir, r);
    OneStep(p, dir, r, a);
    NextExtends(p, dir, w, a);
    SameCargo(dir, w, Last(r1), id);
    assert Last(r1).ops == w.ops - {a.id};
    r' := FinishOp(p, dir, r1, id);
  }
}
