/** Runs that show what can go wrong: from the state they start in, and from empty databases. */
module Histories {
  import opened Wrappers
  import opened Ids
  import opened Gf256
  import opened Store
  import opened Ratchet
  import opened Mutation
  import opened Custody
  import opened CustodySafety
  import opened Refinement
  import opened CustodyRuns
  import opened ClientSteps
  import opened Positions
  import opened RunBuilding
  import opened Overlaps

  // --- Entries that move back, from any state that allows it ---

  /** The list names both notices' old PIDs, at different places. */
  ghost predicate NamesBoth(ms: seq<Member>, nt1: Notice, nt2: Notice, k: nat) {
    k < |ms| && ms[k].pid == nt1.oldPid && Custody.Lists(ms, nt2.oldPid) && nt1.oldPid != nt2.oldPid
  }

  lemma WrittenFirst(w: World, ms: seq<Member>, nt1: Notice, nt2: Notice, k: nat)
    requires NamesBoth(ms, nt1, nt2, k) && Depth(w, nt1.newPid) == Depth(w, nt1.oldPid) + 1
    ensures !NoneBehind(w, Rotated(ms, nt1.oldPid, nt1.newPid, nt1.newEndpoint),
                        Rotated(ms, nt2.oldPid, nt2.newPid, nt2.newEndpoint))
  {
    hide Depth, Custody.Lists;
    var a := Rotated(ms, nt1.oldPid, nt1.newPid, nt1.newEndpoint);
    var b := Rotated(ms, nt2.oldPid, nt2.newPid, nt2.newEndpoint);
    assert a[k].pid == nt1.newPid && b[k].pid == nt1.oldPid;
  }

  lemma ReadsRows(p: Primitives, dir: Directory, w: World, id: nat, n: NodeId, nt: Notice, q: Pid)
    requires id !in w.ops && n in w.stores && nt in w.notices && q in w.stores[n].fragments
    requires w.stores[n].fragments[q].groupId == nt.groupId
    requires Custody.Lists(w.stores[n].fragments[q].members, nt.oldPid)
    ensures var a := ReadRows(id, n, nt);
      && Enabled(p, dir, w, a) && !IsUserCommit(w, a)
      && var w' := Next(p, dir, w, a);
      && w' == w.(ops := w'.ops) && id in w'.ops && w'.ops == w.ops[id := w'.ops[id]]
      && w'.ops[id].Updating? && w'.ops[id].node == n && q in w'.ops[id].updates
      && w'.ops[id].updates[q] == Rotated(w.stores[n].fragments[q].members, nt.oldPid, nt.newPid, nt.newEndpoint)
  {
    hide Rotated, Custody.Lists;
  }

  lemma RowRewritten(p: Primitives, dir: Directory, w: World, id: nat, q: Pid)
    requires id in w.ops && w.ops[id].Updating? && q in w.ops[id].updates && HasRow(w, w.ops[id].node, q)
    ensures var a, n := WriteRow(id, q), w.ops[id].node;
      && Enabled(p, dir, w, a) && !IsUserCommit(w, a)
      && var w', fs := Next(p, dir, w, a), w.stores[n].fragments;
      && w'.slots == w.slots && w'.depths == w.depths && w'.notices == w.notices
      && w'.stores == w.stores[n := w.stores[n].(fragments := fs[q := fs[q].(members := w.ops[id].updates[q])])]
      && forall j :: j in w.ops && j != id ==> j in w'.ops && w'.ops[j] == w.ops[j]
  {
  }

  lemma NamedPlaces(w: World, ms: seq<Member>, nt1: Notice, nt2: Notice, k: nat)
    requires NamesBoth(ms, nt1, nt2, k)
    ensures Custody.Lists(ms, nt1.oldPid) && Custody.Lists(ms, nt2.oldPid)
  {
  }

  lemma KnownDepths(p: Primitives, dir: Directory, r: Run, nt: Notice)
    requires ValidRun(p, dir, r) && nt in Last(r).notices
    ensures Depth(Last(r), nt.newPid) == Depth(Last(r), nt.oldPid) + 1
  {
    hide IsRun, Inv, Depth;
    LastInv(p, dir, r);
    KnownNotice(dir, Last(r), nt);
  }

  /** Two notice handlers at one row: the second to write puts the first one's entry back. */
  lemma RowHandlersOverlap(p: Primitives, dir: Directory, r: Run, n: NodeId, q: Pid, nt1: Notice, nt2: Notice, k: nat)
    returns (r': Run, a: Action)
    requires ValidRun(p, dir, r) && n in Last(r).stores && q in Last(r).stores[n].fragments
    requires nt1 in Last(r).notices && nt2 in Last(r).notices
    requires nt1.groupId == nt2.groupId == Last(r).stores[n].fragments[q].groupId
    requires NamesBoth(Last(r).stores[n].fragments[q].members, nt1, nt2, k)
    ensures ValidRun(p, dir, r') && r.states <= r'.states && r.actions <= r'.actions && NoPuts(r, r')
    ensures a.WriteRow? && Enabled(p, dir, Last(r'), a) && MovesBack(Last(r'), a)
  {
    hide IsRun, Inv, Enabled, Next, IsUserCommit, Rotated, Custody.Lists, NoneBehind, Depth;
    var w := Last(r);
    var ms := w.stores[n].fragments[q].members;
    NamedPlaces(w, ms, nt1, nt2, k);
    KnownDepths(p, dir, r, nt1);
    var i := FreshId(w);
    ReadsRows(p, dir, w, i, n, nt1, q);
    OneStep(p, dir, r, ReadRows(i, n, nt1));
    var r1 := Then(p, dir, r, ReadRows(i, n, nt1));
    var j := FreshId(Last(r1));
    ReadsRows(p, dir, Last(r1), j, n, nt2, q);
    OneStep(p, dir, r1, ReadRows(j, n, nt2));
    var r2 := Then(p, dir, r1, ReadRows(j, n, nt2));
    RowRewritten(p, dir, Last(r2), i, q);
    OneStep(p, dir, r2, WriteRow(i, q));
    r' := Then(p, dir, r2, WriteRow(i, q));
    a := WriteRow(j, q);
    RowRewritten(p, dir, Last(r'), j, q);
    WrittenFirst(w, ms, nt1, nt2, k);
    SameDepths(w, Last(r'), Rotated(ms, nt1.oldPid, nt1.newPid, nt1.newEndpoint),
               Rotated(ms, nt2.oldPid, nt2.newPid, nt2.newEndpoint));
  }

  lemma ReadsManifest(p: Primitives, dir: Directory, w: World, id: nat, n: NodeId, name: Name, nt: Notice)
    requires Inv(dir, w) && id !in w.ops && n in w.stores && nt in w.notices && name in w.stores[n].manifests
    requires w.stores[n].manifests[name].groupId == nt.groupId
    ensures var a := ReadManifest(id, n, name, nt);
      && Enabled(p, dir, w, a) && !IsUserCommit(w, a)
      && var w' := Next(p, dir, w, a);
      && w' == w.(ops := w'.ops) && id in w'.ops && w'.ops == w.ops[id := w'.ops[id]]
      && w'.ops[id].WritingBack? && w'.ops[id].node == n && w'.ops[id].manifest.secretName == name
      && w'.ops[id].manifest.groupId == nt.groupId
      && w'.ops[id].manifest.members
           == Rotated(w.stores[n].manifests[name].members, nt.oldPid, nt.newPid, nt.newEndpoint)
  {
    hide Inv, Rotated, ManifestOk;
    TheManifest(dir, w, n, name);
  }

  lemma WritesManifestBack(p: Primitives, dir: Directory, w: World, id: nat)
    requires id in w.ops && w.ops[id].WritingBack? && w.ops[id].node in w.stores
    ensures var a, op := WriteManifest(id), w.ops[id];
      && Enabled(p, dir, w, a) && !IsUserCommit(w, a)
      && var w' := Next(p, dir, w, a);
      && w'.depths == w.depths && op.node in w'.stores && op.manifest.secretName in w'.stores[op.node].manifests
      && w'.stores[op.node].manifests[op.manifest.secretName].members == op.manifest.members
      && w'.stores[op.node].manifests[op.manifest.secretName].groupId == op.manifest.groupId
      && forall j :: j in w.ops && j != id ==> j in w'.ops && w'.ops[j] == w.ops[j]
  {
  }

  /** The same at a manifest. */
  lemma ManifestHandlersOverlap(p: Primitives, dir: Directory, r: Run, n: NodeId, name: Name, nt1: Notice, nt2: Notice,
                                k: nat)
    returns (r': Run, a: Action)
    requires ValidRun(p, dir, r) && n in Last(r).stores && name in Last(r).stores[n].manifests
    requires nt1 in Last(r).notices && nt2 in Last(r).notices
    requires nt1.groupId == nt2.groupId == Last(r).stores[n].manifests[name].groupId
    requires NamesBoth(Last(r).stores[n].manifests[name].members, nt1, nt2, k)
    ensures ValidRun(p, dir, r') && r.states <= r'.states && r.actions <= r'.actions && NoPuts(r, r')
    ensures a.WriteManifest? && Enabled(p, dir, Last(r'), a) && MovesBack(Last(r'), a) && !GroupSuperseded(Last(r'), a)
  {
    hide IsRun, Inv, Enabled, Next, IsUserCommit, Rotated, Custody.Lists, NoneBehind, Depth;
    var w := Last(r);
    var ms := w.stores[n].manifests[name].members;
    KnownDepths(p, dir, r, nt1);
    LastInv(p, dir, r);
    var i := FreshId(w);
    ReadsManifest(p, dir, w, i, n, name, nt1);
    OneStep(p, dir, r, ReadManifest(i, n, name, nt1));
    var r1 := Then(p, dir, r, ReadManifest(i, n, name, nt1));
    LastInv(p, dir, r1);
    var j := FreshId(Last(r1));
    ReadsManifest(p, dir, Last(r1), j, n, name, nt2);
    OneStep(p, dir, r1, ReadManifest(j, n, name, nt2));
    var r2 := Then(p, dir, r1, ReadManifest(j, n, name, nt2));
    WritesManifestBack(p, dir, Last(r2), i);
    OneStep(p, dir, r2, WriteManifest(i));
    r' := Then(p, dir, r2, WriteManifest(i));
    a := WriteManifest(j);
    WritesManifestBack(p, dir, Last(r'), j);
    WrittenFirst(w, ms, nt1, nt2, k);
    SameDepths(w, Last(r'), Rotated(ms, nt1.oldPid, nt1.newPid, nt1.newEndpoint),
               Rotated(ms, nt2.oldPid, nt2.newPid, nt2.newEndpoint));
  }

  lemma MutatedIdentity(p: Primitives, f: Fragment, d: Drive)
    requires Mutated(p, f, d).Some?
    ensures Mutated(p, f, d).value.members == f.members && Mutated(p, f, d).value.groupId == f.groupId
  {
  }

  lemma RotatedIsAhead(w: World, ms: seq<Member>, nt: Notice)
    requires Custody.Lists(ms, nt.oldPid) && Depth(w, nt.newPid) == Depth(w, nt.oldPid) + 1
    ensures !NoneBehind(w, Rotated(ms, nt.oldPid, nt.newPid, nt.newEndpoint), ms)
  {
    hide Depth;
    var k :| 0 <= k < |ms| && ms[k].pid == nt.oldPid;
    assert Rotated(ms, nt.oldPid, nt.newPid, nt.newEndpoint)[k].pid == nt.newPid;
  }

  lemma RotatedIsNotBehind(w: World, ms: seq<Member>, nt: Notice)
    requires Depth(w, nt.newPid) == Depth(w, nt.oldPid) + 1
    ensures NoneBehind(w, ms, Rotated(ms, nt.oldPid, nt.newPid, nt.newEndpoint))
  {
    hide Depth;
  }

  lemma PutFindsALaterRow(w: World, id: nat, x: Pid)
    requires id in w.ops && w.ops[id].Mutating? && w.ops[id].node in w.stores
    requires !HasRow(w, w.ops[id].node, w.ops[id].row.pid) && Later(w, w.ops[id].node, w.ops[id].row.pid, x)
    requires NoneBehind(w, w.ops[id].target.members, ListOf(w, w.ops[id].node, x))
    requires !NoneBehind(w, ListOf(w, w.ops[id].node, x), w.ops[id].target.members)
    ensures PutsBehind(w, PutNewRow(id)) && MovesBack(w, PutNewRow(id))
  {
    hide NoneBehind, Depth;
  }

  lemma SameLater(w: World, w': World, n: NodeId, q: Pid, x: Pid)
    requires Later(w, n, q, x) && !HasRow(w, n, q) && w'.slots == w.slots && w'.depths == w.depths
    requires n in w'.stores && w'.stores[n].fragments.Keys == w.stores[n].fragments.Keys
    ensures Later(w', n, q, x) && !HasRow(w', n, q)
  {
  }

  /** A pending put whose predecessor is gone, and a notice for the row that came after it. */
  lemma HandlerBeforePut(p: Primitives, dir: Directory, r: Run, i: nat, x: Pid, nt: Notice)
    returns (r': Run, a: Action)
    requires ValidRun(p, dir, r) && i in Last(r).ops && Last(r).ops[i].Mutating? && !Last(r).ops[i].stored
    requires var w, op := Last(r), Last(r).ops[i];
      && op.node in w.stores && op.row.pid in w.slots && op.target.pid !in w.slots
      && !HasRow(w, op.node, op.row.pid) && Later(w, op.node, op.row.pid, x) && HasRow(w, op.node, x)
      && ListOf(w, op.node, x) == op.target.members && w.stores[op.node].fragments[x].groupId == nt.groupId
      && nt in w.notices && Custody.Lists(op.target.members, nt.oldPid)
    ensures ValidRun(p, dir, r') && r.states <= r'.states && r.actions <= r'.actions
    ensures forall k :: |r.actions| <= k < |r'.actions| ==> NewRotation(r'.states[k], r'.actions[k])
    ensures a.PutNewRow? && Enabled(p, dir, Last(r'), a) && NewRotation(Last(r'), a) && MovesBack(Last(r'), a)
    ensures PutsBehind(Last(r'), a) && !HasRow(Last(r'), Last(r').ops[a.id].node, Last(r').ops[a.id].row.pid)
  {
    hide IsRun, Inv, Enabled, Next, IsUserCommit, Rotated, Custody.Lists, NoneBehind, Depth, MovesBack, PutsBehind,
      Later, NewRotation;
    var op := Last(r).ops[i];
    var j := FreshId(Last(r));
    ReadsRows(p, dir, Last(r), j, op.node, nt, x);
    OneStep(p, dir, r, ReadRows(j, op.node, nt));
    var r1 := Then(p, dir, r, ReadRows(j, op.node, nt));
    RowRewritten(p, dir, Last(r1), j, x);
    OneStep(p, dir, r1, WriteRow(j, x));
    r' := Then(p, dir, r1, WriteRow(j, x));
    OtherStepsRotateNothing(Last(r), ReadRows(j, op.node, nt));
    OtherStepsRotateNothing(Last(r1), WriteRow(j, x));
    a := PutNewRow(i);
    SameLater(Last(r), Last(r'), op.node, op.row.pid, x);
    MutationPuts(p, dir, Last(r'), i);
    KnownDepths(p, dir, r', nt);
    RotatedIsAhead(Last(r'), op.target.members, nt);
    RotatedIsNotBehind(Last(r'), op.target.members, nt);
    PutFindsALaterRow(Last(r'), i, x);
  }

  /** A notice handled between a mutation's read and its put: the new row has the old list. */
  lemma HandlerInsideMutation(p: Primitives, dir: Directory, r: Run, n: NodeId, q: Pid, nt: Notice, d: Drive)
    returns (r': Run, a: Action)
    requires ValidRun(p, dir, r) && n in Last(r).stores && q in Last(r).stores[n].fragments
    requires nt in Last(r).notices && nt.groupId == Last(r).stores[n].fragments[q].groupId
    requires Custody.Lists(Last(r).stores[n].fragments[q].members, nt.oldPid)
    requires Mutated(p, Last(r).stores[n].fragments[q], d).Some?
    requires Mutated(p, Last(r).stores[n].fragments[q], d).value.pid !in Last(r).slots
    ensures ValidRun(p, dir, r') && r.states <= r'.states && r.actions <= r'.actions && NoPuts(r, r')
    ensures a.PutNewRow? && Enabled(p, dir, Last(r'), a) && NewRotation(Last(r'), a) && MovesBack(Last(r'), a)
  {
    hide IsRun, Inv, Enabled, Next, IsUserCommit, Rotated, Custody.Lists, NoneBehind, Depth, Mutated, RowOk;
    var w := Last(r);
    var f := w.stores[n].fragments[q];
    KnownDepths(p, dir, r, nt);
    LastInv(p, dir, r);
    TheRow(dir, w, n, q);
    RowSlot(dir, w, n, f);
    var i := FreshId(w);
    MutationBegins(p, dir, w, i, n, q, d);
    OneStep(p, dir, r, BeginMutation(i, n, q, d));
    var r1 := Then(p, dir, r, BeginMutation(i, n, q, d));
    var j := FreshId(Last(r1));
    ReadsRows(p, dir, Last(r1), j, n, nt, q);
    OneStep(p, dir, r1, ReadRows(j, n, nt));
    var r2 := Then(p, dir, r1, ReadRows(j, n, nt));
    RowRewritten(p, dir, Last(r2), j, q);
    OneStep(p, dir, r2, WriteRow(j, q));
    r' := Then(p, dir, r2, WriteRow(j, q));
    a := PutNewRow(i);
    MutationPuts(p, dir, Last(r'), i);
    MutatedIdentity(p, f, d);
    RotatedIsAhead(w, f.members, nt);
    SameDepths(w, Last(r'), Rotated(f.members, nt.oldPid, nt.newPid, nt.newEndpoint), f.members);
  }

  /** The world with one more row of q's share, and another list in q's row. */
  ghost predicate NewRowBeside(w: World, w': World, n: NodeId, q: Pid, f: Fragment, ms: seq<Member>) {
    && HasRow(w, n, q) && q in w.slots && f.pid !in w.slots
    && n in w'.stores && w'.slots == w.slots[f.pid := w.slots[q]] && w'.depths == w.depths[f.pid := Depth(w, q) + 1]
    && w'.stores[n].fragments == w.stores[n].fragments[f.pid := f][q := w.stores[n].fragments[q].(members := ms)]
  }

  lemma LaterBefore(w: World, w': World, n: NodeId, q: Pid, f: Fragment, ms: seq<Member>, r: Pid)
    requires NewRowBeside(w, w', n, q, f, ms) && Later(w', n, q, r) && r != f.pid
    ensures Later(w, n, q, r)
  {
  }

  lemma NewRowsList(w: World, w': World, n: NodeId, q: Pid, f: Fragment, ms: seq<Member>)
    requires NewRowBeside(w, w', n, q, f, ms) && f.pid != q
    ensures HasRow(w', n, f.pid) && ListOf(w', n, f.pid) == f.members && HasRow(w', n, q) && ListOf(w', n, q) == ms
  {
  }

  /** When the new row is the only later one and has the old list, nothing has the moved entry. */
  lemma OnlyTheNewRow(w: World, w': World, n: NodeId, q: Pid, f: Fragment, ms: seq<Member>)
    requires NewRowBeside(w, w', n, q, f, ms) && (forall r :: !Later(w, n, q, r)) && f.pid != q
    requires !NoneBehind(w', ms, f.members)
    ensures HasRow(w', n, q) && ListOf(w', n, q) == ms && !LaterHas(w', n, q, ms)
  {
    hide NoneBehind, Later;
    forall r | Later(w', n, q, r)
      ensures r == f.pid
    {
      if r != f.pid {
        LaterBefore(w, w', n, q, f, ms, r);
      }
    }
    NewRowsList(w, w', n, q, f, ms);
  }

  lemma DeleteLosesTheMove(w: World, id: nat)
    requires id in w.ops && w.ops[id].Mutating? && HasRow(w, w.ops[id].node, w.ops[id].row.pid)
    requires !LaterHas(w, w.ops[id].node, w.ops[id].row.pid, ListOf(w, w.ops[id].node, w.ops[id].row.pid))
    ensures MovesBack(w, DeleteOldRow(id))
  {
    hide LaterHas;
  }

  /** The row a mutation has put, while the old one is still there. */
  lemma PutBeside(w: World, w': World, op: Op)
    requires op.Mutating? && HasRow(w, op.node, op.row.pid) && op.target.pid != op.row.pid
    requires w'.stores == w.stores[op.node := PutFragment(w.stores[op.node], op.target)]
    ensures HasRow(w', op.node, op.row.pid) && ListOf(w', op.node, op.row.pid) == ListOf(w, op.node, op.row.pid)
  {
  }

  /** A handler reads the rows while a mutation is between its read and its put, and the row is put. */
  lemma HandlerReadsBeforePut(p: Primitives, dir: Directory, r: Run, n: NodeId, q: Pid, nt: Notice, d: Drive)
    returns (r': Run, i: nat, j: nat)
    requires ValidRun(p, dir, r) && HasRow(Last(r), n, q)
    requires nt in Last(r).notices && nt.groupId == Last(r).stores[n].fragments[q].groupId
    requires Custody.Lists(ListOf(Last(r), n, q), nt.oldPid)
    requires Mutated(p, Last(r).stores[n].fragments[q], d).Some?
    requires Mutated(p, Last(r).stores[n].fragments[q], d).value.pid !in Last(r).slots
    ensures ValidRun(p, dir, r') && r.states <= r'.states && r.actions <= r'.actions
    ensures forall k :: |r.actions| <= k < |r'.actions| ==> NewRotation(r'.states[k], r'.actions[k])
    ensures q in Last(r).slots && Last(r).stores[n].fragments[q].pid == q
    ensures var w, w' := Last(r), Last(r');
      var f, t := w.stores[n].fragments[q], Mutated(p, w.stores[n].fragments[q], d).value;
      && i != j && i in w'.ops && w'.ops[i] == Mutating(n, f, t, true) && w'.notices == w.notices
      && j in w'.ops && w'.ops[j].Updating? && w'.ops[j].node == n && q in w'.ops[j].updates
      && w'.ops[j].updates[q] == Rotated(f.members, nt.oldPid, nt.newPid, nt.newEndpoint)
      && w'.stores == w.stores[n := PutFragment(w.stores[n], t)]
      && w'.slots == w.slots[t.pid := w.slots[q]] && w'.depths == w.depths[t.pid := Depth(w, q) + 1]
  {
    hide IsRun, Inv, Enabled, Next, IsUserCommit, Rotated, Custody.Lists, Mutated, RowOk, NewRotation, PutFragment;
    var w := Last(r);
    var f := w.stores[n].fragments[q];
    LastInv(p, dir, r);
    TheRow(dir, w, n, q);
    RowSlot(dir, w, n, f);
    i := FreshId(w);
    MutationBegins(p, dir, w, i, n, q, d);
    OneStep(p, dir, r, BeginMutation(i, n, q, d));
    var r1 := Then(p, dir, r, BeginMutation(i, n, q, d));
    j := FreshId(Last(r1));
    ReadsRows(p, dir, Last(r1), j, n, nt, q);
    OneStep(p, dir, r1, ReadRows(j, n, nt));
    var r2 := Then(p, dir, r1, ReadRows(j, n, nt));
    MutationPuts(p, dir, Last(r2), i);
    OneStep(p, dir, r2, PutNewRow(i));
    r' := Then(p, dir, r2, PutNewRow(i));
    OtherStepsRotateNothing(w, BeginMutation(i, n, q, d));
    OtherStepsRotateNothing(Last(r1), ReadRows(j, n, nt));
  }

  /** A notice whose handler read the rows before the put and writes after it: the old row takes the
      rotation, and is deleted with it. */
  lemma HandlerAcrossPut(p: Primitives, dir: Directory, r: Run, n: NodeId, q: Pid, nt: Notice, d: Drive)
    returns (r': Run, a: Action)
    requires ValidRun(p, dir, r) && n in dir && HasRow(Last(r), n, q) && (forall x :: !Later(Last(r), n, q, x))
    requires nt in Last(r).notices && nt.groupId == Last(r).stores[n].fragments[q].groupId
    requires Custody.Lists(ListOf(Last(r), n, q), nt.oldPid)
    requires Mutated(p, Last(r).stores[n].fragments[q], d).Some?
    requires Mutated(p, Last(r).stores[n].fragments[q], d).value.pid !in Last(r).slots
    ensures ValidRun(p, dir, r') && r.states <= r'.states && r.actions <= r'.actions
    ensures forall k :: |r.actions| <= k < |r'.actions| ==> NewRotation(r'.states[k], r'.actions[k])
    ensures a.DeleteOldRow? && Enabled(p, dir, Last(r'), a) && NewRotation(Last(r'), a) && MovesBack(Last(r'), a)
  {
    hide IsRun, Inv, Enabled, Next, IsUserCommit, Rotated, Custody.Lists, NoneBehind, Depth, Mutated, MovesBack,
      LaterHas, Later, NewRotation;
    var w := Last(r);
    var f := w.stores[n].fragments[q];
    var ms := Rotated(f.members, nt.oldPid, nt.newPid, nt.newEndpoint);
    var r3, i, j := HandlerReadsBeforePut(p, dir, r, n, q, nt, d);
    PutBeside(w, Last(r3), Last(r3).ops[i]);
    RowRewritten(p, dir, Last(r3), j, q);
    OneStep(p, dir, r3, WriteRow(j, q));
    r' := Then(p, dir, r3, WriteRow(j, q));
    OtherStepsRotateNothing(Last(r3), WriteRow(j, q));
    a := DeleteOldRow(i);
    OtherStepsRotateNothing(Last(r'), a);
    MutationDeletes(p, dir, Last(r'), i);
    MutatedIdentity(p, f, d);
    KnownDepths(p, dir, r', nt);
    RotatedIsAhead(Last(r'), f.members, nt);
    OnlyTheNewRow(w, Last(r'), n, q, Last(r').ops[i].target, ms);
    DeleteLosesTheMove(Last(r'), i);
  }

  lemma SuccessorIsLater(w: World, w': World, n: NodeId, q: Pid, f: Fragment)
    requires HasRow(w, n, q) && q in w.slots && f.pid !in w.slots
    requires w'.stores == w.stores[n := DeleteFragment(PutFragment(w.stores[n], f), q)]
    requires w'.slots == w.slots[f.pid := w.slots[q]] && w'.depths == w.depths[f.pid := Depth(w, q) + 1]
    ensures Later(w', n, q, f.pid) && !HasRow(w', n, q) && HasRow(w', n, f.pid) && w'.stores[n].fragments[f.pid] == f
  {
  }

  /** Two mutations of one row: the second to begin goes through, a notice is folded into its new
      row, and then the first puts a row with the list it had read. */
  lemma MutationOutlived(p: Primitives, dir: Directory, r: Run, n: NodeId, q: Pid, nt: Notice, d: Drive, d2: Drive)
    returns (r': Run, a: Action)
    requires ValidRun(p, dir, r) && n in dir && HasRow(Last(r), n, q)
    requires nt in Last(r).notices && nt.groupId == Last(r).stores[n].fragments[q].groupId
    requires Custody.Lists(ListOf(Last(r), n, q), nt.oldPid)
    requires Mutated(p, Last(r).stores[n].fragments[q], d).Some? && Mutated(p, Last(r).stores[n].fragments[q], d2).Some?
    requires Mutated(p, Last(r).stores[n].fragments[q], d).value.pid !in Last(r).slots
    requires Mutated(p, Last(r).stores[n].fragments[q], d2).value.pid !in Last(r).slots
    requires Mutated(p, Last(r).stores[n].fragments[q], d).value.pid
      != Mutated(p, Last(r).stores[n].fragments[q], d2).value.pid
    ensures ValidRun(p, dir, r') && r.states <= r'.states && r.actions <= r'.actions
    ensures forall k :: |r.actions| <= k < |r'.actions| ==> NewRotation(r'.states[k], r'.actions[k])
    ensures a.PutNewRow? && Enabled(p, dir, Last(r'), a) && NewRotation(Last(r'), a) && MovesBack(Last(r'), a)
    ensures PutsBehind(Last(r'), a) && !HasRow(Last(r'), Last(r').ops[a.id].node, Last(r').ops[a.id].row.pid)
  {
    hide IsRun, Inv, Enabled, Next, IsUserCommit, Custody.Lists, Depth, Mutated, RowOk, MovesBack, Later, NewRotation,
      PutFragment, DeleteFragment;
    var w := Last(r);
    var f := w.stores[n].fragments[q];
    var t2 := Mutated(p, f, d2).value;
    LastInv(p, dir, r);
    TheRow(dir, w, n, q);
    RowSlot(dir, w, n, f);
    MutatedIdentity(p, f, d);
    MutatedIdentity(p, f, d2);
    var i := FreshId(w);
    MutationBegins(p, dir, w, i, n, q, d);
    OneStep(p, dir, r, BeginMutation(i, n, q, d));
    var r1 := Then(p, dir, r, BeginMutation(i, n, q, d));
    OtherStepsRotateNothing(w, BeginMutation(i, n, q, d));
    var r2 := MutateRow(p, dir, r1, n, q, d2);
    SuccessorIsLater(Last(r1), Last(r2), n, q, t2);
    r', a := HandlerBeforePut(p, dir, r2, i, t2.pid, nt);
  }

  // --- Runs from empty databases ---

  const NODES: Directory := map["a" := "A", "b" := "B", "c" := "C"]
  const THREE_HOLDERS := Group("t", [ONE], 2, [[ONE]], ["b", "a", "c"])
  const OTHER_BYTES := Group("t", [THREE], 2, [[ONE]], ["b", "a", "c"])
  const ENTROPY := Drive([ONE], [ONE], [])
  const OTHER_SEED := Drive([THREE], [ONE], [])

  /** Key derivation and PID rotation that never meet an old PID again. */
  function Growing(): Primitives {
    Primitives((_, _, _) => [ONE], (seed, pid) => pid + if seed == [ONE] then "x" else "xxxxxxx")
  }

  lemma GroupsOk()
    ensures GroupOk(NODES, THREE_HOLDERS) && GroupOk(NODES, OTHER_BYTES)
  {
  }

  lemma EmptyRun(p: Primitives) returns (r: Run)
    ensures ValidRun(p, NODES, r) && r.states == [Init(NODES)] && r.actions == []
    ensures var w := Last(r);
      && w.stores.Keys == {"a", "b", "c"} && w.ops == map[] && w.slots == map[]
      && w.groups == map[] && w.depths == map[] && w.notices == {}
      && forall n :: n in w.stores ==> w.stores[n] == EMPTY_STORE
  {
    r := Run([Init(NODES)], []);
  }

  /** What a delivered row mutates to. */
  lemma DeliveredMutates(g: Group, op: Op)
    requires op.Sharing? && op.next < |op.members|
    ensures var f := DeliveredRow(g, op, [ONE], [], "");
      && f.pid == op.members[op.next].pid && f.groupId == op.group && f.groupToken == g.token && f.members == op.members
      && Mutated(Growing(), f, ENTROPY).Some?
      && Mutated(Growing(), f, ENTROPY).value.pid == f.pid + "x"
      && Mutated(Growing(), f, OTHER_SEED).Some?
      && Mutated(Growing(), f, OTHER_SEED).value.pid == f.pid + "xxxxxxx"
      && Mutated(Growing(), f, ENTROPY).value.members == f.members
  {
    hide ShareOf;
  }

  /** The members that everybody is told of at first. */
  lemma FirstMembers(g: Group, name: Name)
    requires g.holders == ["b", "a", "c"]
    ensures var op := UserSharing(NODES, "b", name, g, 0);
      && op.Sharing? && op.members == [Member(Text(0), "b", "B"), Member(Text(2), "a", "A"), Member(Text(4), "c", "C")]
      && op.group == Text(0) && op.owner == "b" && op.name == name && op.next == 0
  {
    assert SpacedPids(0, 3) == [Text(0), Text(2), Text(4)];
  }

  lemma EvenLengths(q: Pid)
    requires q in SpacedPids(0, 3)
    ensures |q| == 0 || |q| == 2 || |q| == 4
  {
    var i :| 0 <= i < 3 && SpacedPids(0, 3)[i] == q;
    assert |q| == 2 * i;
  }

  lemma NoPutsNewRotations(r: Run, r': Run)
    requires |r.states| == |r.actions| + 1 && |r'.states| == |r'.actions| + 1
    requires r.states <= r'.states && r.actions <= r'.actions
    requires NewRotations(r.states, r.actions)
    requires forall i :: |r.actions| <= i < |r'.actions| ==>
      !r'.actions[i].PutNewRow? || NewRotation(r'.states[i], r'.actions[i])
    ensures NewRotations(r'.states, r'.actions)
  {
    forall i | 0 <= i < |r'.actions|
      ensures NewRotation(r'.states[i], r'.actions[i])
    {
      if i < |r.actions| {
        assert r'.states[i] == r.states[i] && r'.actions[i] == r.actions[i];
      }
    }
  }

  /** A secret of "b" is stored. */
  lemma SecretStored() returns (r: Run)
    ensures ValidRun(Growing(), NODES, r) && NewRotations(r.states, r.actions) && r.states[0] == Init(NODES)
    ensures var w, op := Last(r), UserSharing(NODES, "b", "s", THREE_HOLDERS, 0);
      && w.ops == map[] && w.notices == {} && w.depths == map[] && w.groups == map[Text(0) := THREE_HOLDERS]
      && (forall q :: q in w.slots ==> |q| == 0 || |q| == 2 || |q| == 4)
      && (forall i :: 0 <= i < 3 ==> Holds(w, op, i))
      && "b" in w.stores && "s" in w.stores["b"].manifests
      && w.stores["b"].manifests["s"] == Normalized(NewManifest(THREE_HOLDERS, op))
  {
    hide IsRun, Inv, GroupOk, Holds, NewManifest, Normalized, Init, SpacedPids, UserSharing;
    GroupsOk();
    FirstMembers(THREE_HOLDERS, "s");
    var r0 := EmptyRun(Growing());
    r := StoreSecret(Growing(), NODES, r0, 0, "b", "s", THREE_HOLDERS, 0);
    NoPutsNewRotations(r0, r);
    forall q | q in Last(r).slots
      ensures |q| == 0 || |q| == 2 || |q| == 4
    {
      EvenLengths(q);
    }
  }

  /** The state after "a" and "c" have mutated, with their notices under way to "b". */
  ghost predicate TwoUnderWay(w: World, ms: seq<Member>, nt1: Notice, nt2: Notice) {
    && w.ops == map[] && nt1 in w.notices && nt2 in w.notices
    && nt1.groupId == nt2.groupId == Text(0) && NamesBoth(ms, nt1, nt2, 1)
    && "b" in w.stores && Text(0) in w.stores["b"].fragments
    && var f := w.stores["b"].fragments[Text(0)];
    && f.groupId == Text(0) && f.members == ms
    && Mutated(Growing(), f, ENTROPY).Some? && Mutated(Growing(), f, ENTROPY).value.pid !in w.slots
    && Mutated(Growing(), f, OTHER_SEED).Some? && Mutated(Growing(), f, OTHER_SEED).value.pid !in w.slots
    && Mutated(Growing(), f, ENTROPY).value.pid != Mutated(Growing(), f, OTHER_SEED).value.pid
    && "s" in w.stores["b"].manifests && w.stores["b"].manifests["s"].members == ms
    && w.stores["b"].manifests["s"].groupId == Text(0)
    && w.groups == map[Text(0) := THREE_HOLDERS]
  }

  lemma HeldRow(w: World, op: Op, i: nat)
    requires Holds(w, op, i)
    ensures i < |op.members| && op.members[i].nodeId in w.stores
    ensures op.members[i].pid in w.stores[op.members[i].nodeId].fragments
    ensures var f := w.stores[op.members[i].nodeId].fragments[op.members[i].pid];
      && f.groupId == op.group && f.members == op.members && f.pid == op.members[i].pid
      && Mutated(Growing(), f, ENTROPY).Some?
      && Mutated(Growing(), f, ENTROPY).value.pid == f.pid + "x"
      && Mutated(Growing(), f, OTHER_SEED).Some?
      && Mutated(Growing(), f, OTHER_SEED).value.pid == f.pid + "xxxxxxx"
      && Mutated(Growing(), f, ENTROPY).value.members == f.members
  {
    hide DeliveredRow, Mutated;
    DeliveredMutates(w.groups[op.group], op.(next := i));
  }

  lemma TextLengths()
    ensures |Text(0)| == 0 && |Text(2)| == 2 && |Text(4)| == 4
  {
  }

  lemma StoredManifestParts(g: Group, op: Op)
    requires op.Sharing?
    ensures Normalized(NewManifest(g, op)).members == op.members && Normalized(NewManifest(g, op)).groupId == op.group
  {
  }

  /** A holder's first row of the secret, and what its mutation will make of it. */
  ghost predicate FirstRow(w: World, n: NodeId, pid: Pid, ms: seq<Member>) {
    && n in w.stores && pid in w.stores[n].fragments
    && var f := w.stores[n].fragments[pid];
    && f.groupId == Text(0) && f.members == ms && f.pid == pid
    && Mutated(Growing(), f, ENTROPY).Some?
    && Mutated(Growing(), f, ENTROPY).value.pid == pid + "x"
    && Mutated(Growing(), f, OTHER_SEED).Some?
    && Mutated(Growing(), f, OTHER_SEED).value.pid == pid + "xxxxxxx"
    && Mutated(Growing(), f, ENTROPY).value.members == ms
  }

  ghost predicate JustStored(w: World, ms: seq<Member>) {
    && w.ops == map[] && w.groups == map[Text(0) := THREE_HOLDERS] && w.depths == map[]
    && (forall q :: q in w.slots ==> |q| == 0 || |q| == 2 || |q| == 4)
    && |ms| == 3 && ms[1].pid == Text(2) && ms[2].pid == Text(4)
    && FirstRow(w, "b", Text(0), ms) && FirstRow(w, "a", Text(2), ms) && FirstRow(w, "c", Text(4), ms)
    && "s" in w.stores["b"].manifests && w.stores["b"].manifests["s"].members == ms
    && w.stores["b"].manifests["s"].groupId == Text(0)
  }

  lemma FirstRows() returns (r: Run, ms: seq<Member>)
    ensures ValidRun(Growing(), NODES, r) && NewRotations(r.states, r.actions) && r.states[0] == Init(NODES)
    ensures JustStored(Last(r), ms)
  {
    hide IsRun, Inv, Holds, NewManifest, Normalized, NewRotations, Mutated, Init, UserSharing, Text;
    FirstMembers(THREE_HOLDERS, "s");
    var op := UserSharing(NODES, "b", "s", THREE_HOLDERS, 0);
    ms := op.members;
    r := SecretStored();
    assert forall i :: 0 <= i < 3 ==> Holds(Last(r), op, i);
    HeldRow(Last(r), op, 0);
    HeldRow(Last(r), op, 1);
    HeldRow(Last(r), op, 2);
    StoredManifestParts(THREE_HOLDERS, op);
  }

  lemma OtherHoldersOtherSlots(dir: Directory, w: World, n: NodeId, q: Pid, m: NodeId, r: Pid)
    requires Inv(dir, w) && HasRow(w, n, q) && HasRow(w, m, r) && n != m
    ensures q in w.slots && r in w.slots && w.slots[q] != w.slots[r]
  {
    hide Inv, MembersOk, ShareOf;
    TheRow(dir, w, n, q);
    TheRow(dir, w, m, r);
  }

  /** Only these two PIDs have been rotated to, and they stand for other shares. */
  lemma NoLaterRow(w: World, n: NodeId, q: Pid, x: Pid, y: Pid)
    requires w.depths.Keys == {x, y} && q in w.slots && x in w.slots && y in w.slots
    requires w.slots[x] != w.slots[q] && w.slots[y] != w.slots[q]
    ensures forall r :: !Later(w, n, q, r)
  {
  }

  /** The state after "a" has mutated. */
  ghost predicate OneUnderWay(w: World, ms: seq<Member>, nt: Notice) {
    && w.ops == map[] && w.groups == map[Text(0) := THREE_HOLDERS] && w.depths.Keys == {nt.newPid} && nt in w.notices
    && nt.groupId == Text(0) && nt.oldPid == Text(2) && |nt.newPid| == 3 && nt.newPid in w.slots
    && (forall q :: q in w.slots ==> |q| == 0 || |q| == 2 || |q| == 3 || |q| == 4)
    && |ms| == 3 && ms[1].pid == Text(2) && ms[2].pid == Text(4)
    && FirstRow(w, "b", Text(0), ms) && FirstRow(w, "c", Text(4), ms)
    && Text(0) in w.slots && Text(4) in w.slots
    && w.slots[Text(4)] != w.slots[Text(0)] && w.slots[nt.newPid] != w.slots[Text(0)]
    && "s" in w.stores["b"].manifests && w.stores["b"].manifests["s"].members == ms
    && w.stores["b"].manifests["s"].groupId == Text(0)
  }

  lemma OneNotice() returns (r: Run, ms: seq<Member>, nt: Notice)
    ensures ValidRun(Growing(), NODES, r) && NewRotations(r.states, r.actions) && r.states[0] == Init(NODES)
    ensures OneUnderWay(Last(r), ms, nt)
  {
    hide IsRun, Inv, NewRotations, NewRotation, Mutated, Init, Text;
    TextLengths();
    var r1;
    r1, ms := FirstRows();
    LastInv(Growing(), NODES, r1);
    OtherHoldersOtherSlots(NODES, Last(r1), "b", Text(0), "a", Text(2));
    OtherHoldersOtherSlots(NODES, Last(r1), "b", Text(0), "c", Text(4));
    var f := Last(r1).stores["a"].fragments[Text(2)];
    r := MutateRow(Growing(), NODES, r1, "a", Text(2), ENTROPY);
    NoPutsNewRotations(r1, r);
    nt := Notice(f.groupId, f.groupToken, Text(2), Mutated(Growing(), f, ENTROPY).value.pid,
                 "A", Mutated(Growing(), f, ENTROPY).value.epoch);
  }

  /** From empty databases: a secret is stored, and two of its holders mutate their rows. */
  lemma TwoNotices() returns (r: Run, ms: seq<Member>, nt1: Notice, nt2: Notice)
    ensures ValidRun(Growing(), NODES, r) && NewRotations(r.states, r.actions) && r.states[0] == Init(NODES)
    ensures TwoUnderWay(Last(r), ms, nt1, nt2) && forall x :: !Later(Last(r), "b", Text(0), x)
  {
    hide IsRun, Inv, NewRotations, NewRotation, Mutated, Init, Text, Later;
    TextLengths();
    var r1;
    r1, ms, nt1 := OneNotice();
    var f := Last(r1).stores["c"].fragments[Text(4)];
    r := MutateRow(Growing(), NODES, r1, "c", Text(4), ENTROPY);
    NoPutsNewRotations(r1, r);
    nt2 := Notice(f.groupId, f.groupToken, Text(4), Mutated(Growing(), f, ENTROPY).value.pid,
                  "C", Mutated(Growing(), f, ENTROPY).value.epoch);
    NoLaterRow(Last(r), "b", Text(0), nt1.newPid, nt2.newPid);
  }

  /** From empty databases: two notice handlers overlap at a row of "b", and an entry moves back. */
  lemma RowEntryMovesBack() returns (r: Run, a: Action)
    ensures ValidRun(Growing(), NODES, r) && NewRotations(r.states, r.actions) && r.states[0] == Init(NODES)
    ensures a.WriteRow? && Enabled(Growing(), NODES, Last(r), a) && NewRotation(Last(r), a) && MovesBack(Last(r), a)
  {
    hide IsRun, Inv, MovesBack, Mutated, NamesBoth, Init, Enabled;
    var r0, ms, nt1, nt2 := TwoNotices();
    r, a := RowHandlersOverlap(Growing(), NODES, r0, "b", Text(0), nt1, nt2, 1);
    NoPutsNewRotations(r0, r);
  }

  /** From empty databases: they overlap at the manifest of "b". */
  lemma ManifestEntryMovesBack() returns (r: Run, a: Action)
    ensures ValidRun(Growing(), NODES, r) && NewRotations(r.states, r.actions) && r.states[0] == Init(NODES)
    ensures a.WriteManifest? && Enabled(Growing(), NODES, Last(r), a) && NewRotation(Last(r), a)
    ensures MovesBack(Last(r), a) && !GroupSuperseded(Last(r), a)
  {
    hide IsRun, Inv, MovesBack, Mutated, NamesBoth, Init, Enabled, GroupSuperseded;
    var r0, ms, nt1, nt2 := TwoNotices();
    r, a := ManifestHandlersOverlap(Growing(), NODES, r0, "b", "s", nt1, nt2, 1);
    NoPutsNewRotations(r0, r);
  }

  /** From empty databases: a notice is handled inside a mutation of "b"'s own row. */
  lemma MutatedEntryMovesBack() returns (r: Run, a: Action)
    ensures ValidRun(Growing(), NODES, r) && NewRotations(r.states, r.actions) && r.states[0] == Init(NODES)
    ensures a.PutNewRow? && Enabled(Growing(), NODES, Last(r), a) && NewRotation(Last(r), a) && MovesBack(Last(r), a)
  {
    hide IsRun, Inv, MovesBack, Mutated, Init, Enabled, NewRotation;
    var r0, ms, nt1, nt2 := TwoNotices();
    NamedPlaces(Last(r0), ms, nt1, nt2, 1);
    r, a := HandlerInsideMutation(Growing(), NODES, r0, "b", Text(0), nt1, ENTROPY);
    NoPutsNewRotations(r0, r);
  }

  /** From empty databases: a handler reads before the put of a mutation of "b"'s row and writes
      after it, and the delete takes the rotation away. */
  lemma DeletedEntryMovesBack() returns (r: Run, a: Action)
    ensures ValidRun(Growing(), NODES, r) && NewRotations(r.states, r.actions) && r.states[0] == Init(NODES)
    ensures a.DeleteOldRow? && Enabled(Growing(), NODES, Last(r), a) && NewRotation(Last(r), a) && MovesBack(Last(r), a)
  {
    hide IsRun, Inv, MovesBack, Mutated, Init, Enabled, NewRotation, Later;
    var r0, ms, nt1, nt2 := TwoNotices();
    NamedPlaces(Last(r0), ms, nt1, nt2, 1);
    r, a := HandlerAcrossPut(Growing(), NODES, r0, "b", Text(0), nt1, ENTROPY);
    NoPutsNewRotations(r0, r);
  }

  /** From empty databases: of two mutations of "b"'s row one goes through and its new row takes a
      notice before the other one puts. */
  lemma OutlivedEntryMovesBack() returns (r: Run, a: Action)
    ensures ValidRun(Growing(), NODES, r) && NewRotations(r.states, r.actions) && r.states[0] == Init(NODES)
    ensures a.PutNewRow? && Enabled(Growing(), NODES, Last(r), a) && NewRotation(Last(r), a) && MovesBack(Last(r), a)
    ensures PutsBehind(Last(r), a) && !HasRow(Last(r), Last(r).ops[a.id].node, Last(r).ops[a.id].row.pid)
  {
    hide IsRun, Inv, MovesBack, Mutated, Init, Enabled, NewRotation, Later;
    var r0, ms, nt1, nt2 := TwoNotices();
    NamedPlaces(Last(r0), ms, nt1, nt2, 1);
    r, a := MutationOutlived(Growing(), NODES, r0, "b", Text(0), nt1, ENTROPY, OTHER_SEED);
    NoPutsNewRotations(r0, r);
  }

  // --- A lost write, and an undone reshare ---

  lemma CollectionBegins(p: Primitives, dir: Directory, w: World, id: nat, owner: NodeId, name: Name)
    requires Inv(dir, w) && id !in w.ops && owner in w.stores && name in w.stores[owner].manifests
    ensures var a, m := BeginCollecting(id, owner, name, true), w.stores[owner].manifests[name];
      && Enabled(p, dir, w, a) && !IsUserCommit(w, a) && m.groupId in w.groups && m.secretName == name
      && var w' := Next(p, dir, w, a);
      && w' == w.(ops := w'.ops) && w'.ops == w.ops[id := Collecting(owner, m, [], w.groups[m.groupId].secret, true)]
      && Target(w'.ops[id]) == Some((owner, name)) && Cargo(w', w'.ops[id]) == Some(w.groups[m.groupId].secret)
      && Hopeful(m, [])
  {
    hide Inv, MembersOk;
    TheManifest(dir, w, owner, name);
    ManifestFacts(dir, w, w.stores[owner].manifests[name]);
  }

  lemma StoredSecret(dir: Directory, w: World, n: NodeId, name: Name)
    requires Value(w, n, name).Some?
    ensures n in w.stores && name in w.stores[n].manifests && w.stores[n].manifests[name].groupId in w.groups
    ensures Value(w, n, name) == Some(w.groups[w.stores[n].manifests[name].groupId].secret)
  {
  }

  lemma SameCargoNow(w: World, w': World, j: nat, from: nat, g: Group)
    requires j in w.ops && w.ops[j].Collecting? && Target(w.ops[j]).Some? && w.ops[j].manifest.groupId in w.groups
    requires Text(from) !in w.groups && w'.groups == w.groups[Text(from) := g]
    ensures Cargo(w', w.ops[j]) == Cargo(w, w.ops[j])
  {
    hide Target;
  }

  /** Operation j carries other bytes for the name that sharing id is going to write. */
  ghost predicate Rival(w: World, id: nat, j: nat) {
    && id in w.ops && w.ops[id].Sharing? && w.ops[id].group in w.groups
    && j in w.ops && j != id && Target(w.ops[j]) == Some((w.ops[id].owner, w.ops[id].name))
    && Cargo(w, w.ops[j]) != Some(w.groups[w.ops[id].group].secret)
  }

  lemma UserCommitReady(p: Primitives, dir: Directory, w: World, w1: World, id: nat)
    requires id in w.ops && w.ops[id].Sharing? && !w.ops[id].reshare
    requires w.ops[id].group in w.groups && w1.groups == w.groups
    requires Pending(w, w1, w.ops[id := w.ops[id].(next := |w.ops[id].members|)]) && Inv(dir, w1)
    requires exists j :: Rival(w, id, j)
    ensures Enabled(p, dir, w1, Commit(id)) && IsUserCommit(w1, Commit(id)) && !Quiet(w1, Commit(id))
    ensures Written(w1, Commit(id)) == Some(w.groups[w.ops[id].group].secret)
    ensures w1.ops[id].owner == w.ops[id].owner && w1.ops[id].name == w.ops[id].name
  {
    hide Inv, Frame;
    CommitReady(dir, w1, id);
    var j :| Rival(w, id, j);
    assert w1.ops[j] == w.ops[j];
  }

  /** From any state in which a name is stored: a reshare of it begins, the owner writes other bytes
      under it, and that commit is one that overlaps. */
  lemma WriteOverlaps(p: Primitives, dir: Directory, r: Run, owner: NodeId, name: Name, g: Group, from: nat)
    returns (r': Run, a: Action)
    requires ValidRun(p, dir, r) && owner in Last(r).stores && GroupOk(dir, g) && Value(Last(r), owner, name).Some?
    requires Value(Last(r), owner, name) != Some(g.secret)
    requires forall s :: s in Last(r).slots.Keys + Last(r).groups.Keys ==> |s| < from
    ensures ValidRun(p, dir, r') && r.states <= r'.states && r.actions <= r'.actions
    ensures Enabled(p, dir, Last(r'), a) && IsUserCommit(Last(r'), a) && !Quiet(Last(r'), a)
    ensures Written(Last(r'), a) == Some(g.secret)
    ensures Last(r').ops[a.id].owner == owner && Last(r').ops[a.id].name == name
  {
    hide IsRun, Inv, Enabled, Next, GroupOk, SpacedPids, Text, Quiet, Written, IsUserCommit, Cargo, Target, MembersFor;
    LastInv(p, dir, r);
    var j := FreshId(Last(r));
    StoredSecret(dir, Last(r), owner, name);
    CollectionBegins(p, dir, Last(r), j, owner, name);
    OneStep(p, dir, r, BeginCollecting(j, owner, name, true));
    var r1 := Then(p, dir, r, BeginCollecting(j, owner, name, true));
    var id := FreshId(Last(r1));
    var r2 := BeginUserSharing(p, dir, r1, id, owner, name, g, from);
    NewGroup(Last(r1), from);
    SameCargoNow(Last(r1), Last(r2), j, from, g);
    r' := DeliverRest(p, dir, r2, id);
    a := Commit(id);
    LastInv(p, dir, r');
    DealtGroups(Last(r2), Last(r'), Last(r2).ops[id]);
    assert Rival(Last(r2), id, j);
    UserCommitReady(p, dir, Last(r2), Last(r'), id);
  }

  /** From empty databases: "b" reshares "s" and meanwhile writes other bytes under it. The write
      commits, the reshare goes on, and the written bytes are gone. */
  lemma WriteIsLost() returns (r: Run, a: Action, r': Run)
    ensures ValidRun(Growing(), NODES, r) && r.states[0] == Init(NODES) && Enabled(Growing(), NODES, Last(r), a)
    ensures IsUserCommit(Last(r), a) && !Quiet(Last(r), a) && Written(Last(r), a) == Some([THREE])
    ensures ValidRun(Growing(), NODES, r') && Onward(Then(Growing(), NODES, r, a), r')
    ensures Last(r).ops[a.id].owner == "b" && Last(r).ops[a.id].name == "s"
    ensures Value(Last(r'), "b", "s") != Some([THREE])
  {
    hide IsRun, Inv, Init, Enabled, Next, Holds, NewManifest, Normalized, NewRotations, GroupOk, Onward, Text, Quiet,
      Written, IsUserCommit;
    GroupsOk();
    TextLengths();
    FirstMembers(THREE_HOLDERS, "s");
    var r1 := SecretStored();
    StoredManifestParts(THREE_HOLDERS, UserSharing(NODES, "b", "s", THREE_HOLDERS, 0));
    assert Value(Last(r1), "b", "s") == Some([ONE]);
    r, a := WriteOverlaps(Growing(), NODES, r1, "b", "s", OTHER_BYTES, 6);
    r' := OverlappedWriteIsLost(Growing(), NODES, r, a);
  }

  lemma BackToTheSame(w: World, w1: World, n: NodeId, name: Name, i: nat)
    requires n in w.stores && name in w.stores[n].manifests
    requires w.stores[n].manifests[name].groupId in w.groups && Extends(w, w1)
    requires i in w1.ops && w1.ops[i].WritingBack? && w1.ops[i].manifest.groupId == w.stores[n].manifests[name].groupId
    ensures Cargo(w1, w1.ops[i]) == Value(w, n, name) == Some(w.groups[w.stores[n].manifests[name].groupId].secret)
  {
  }

  /** From any state in which a notice about a stored manifest's group is under way: a handler reads
      the manifest, a reshare of the name completes, and the handler writes. */
  lemma ReshareThenWriteBack(p: Primitives, dir: Directory, r: Run, n: NodeId, name: Name, nt: Notice)
    returns (r1: Run, r': Run)
    requires ValidRun(p, dir, r) && n in Last(r).stores && name in Last(r).stores[n].manifests && nt in Last(r).notices
    requires Last(r).stores[n].manifests[name].groupId == nt.groupId
    ensures ValidRun(p, dir, r1) && ValidRun(p, dir, r') && NoPuts(r, r')
    ensures r.states <= r'.states && r.actions <= r'.actions
    ensures r1.states <= r'.states
    ensures n in Last(r1).stores && name in Last(r1).stores[n].manifests
    ensures Last(r1).stores[n].manifests[name].groupId != nt.groupId
    ensures NamedIn(Last(r'), nt.groupId, n, name)
    ensures Value(Last(r1), n, name) == Value(Last(r'), n, name) == Value(Last(r), n, name) != None
  {
    hide IsRun, Inv, Enabled, Next, Value, Rotated, IsUserCommit, Onward, NoPuts, Then, Target, Cargo, Hopeful;
    LastInv(p, dir, r);
    var i := FreshId(Last(r));
    ReadsManifest(p, dir, Last(r), i, n, name, nt);
    OneStep(p, dir, r, ReadManifest(i, n, name, nt));
    OnePut(p, dir, r, ReadManifest(i, n, name, nt));
    var r0 := Then(p, dir, r, ReadManifest(i, n, name, nt));
    OnwardPrefix(r, r0);
    LastInv(p, dir, r0);
    var j := FreshId(Last(r0));
    CollectionBegins(p, dir, Last(r0), j, n, name);
    OneStep(p, dir, r0, BeginCollecting(j, n, name, true));
    OnePut(p, dir, r0, BeginCollecting(j, n, name, true));
    var r2 := Then(p, dir, r0, BeginCollecting(j, n, name, true));
    OnwardPrefix(r0, r2);
    NoPutsTrans(r, r0, r2);
    r1 := FinishReshare(p, dir, r2, j);
    OnwardPrefix(r2, r1);
    NoPutsTrans(r, r2, r1);
    LastInv(p, dir, r1);
    WritesBack(p, dir, Last(r1), i);
    WritesManifestBack(p, dir, Last(r1), i);
    OneStep(p, dir, r1, WriteManifest(i));
    OnePut(p, dir, r1, WriteManifest(i));
    r' := Then(p, dir, r1, WriteManifest(i));
    OnwardPrefix(r1, r');
    NoPutsTrans(r, r1, r');
    RunExtends(p, dir, r1.states, r1.actions, |r.actions|, |r1.actions|);
    BackToTheSame(Last(r), Last(r1), n, name, i);
  }

  /** From empty databases: a reshare of "s" completes, and a notice handler that had read the
      manifest before puts the old group back, members and all. The bytes are the same throughout. */
  lemma ReshareIsUndone() returns (r: Run, k: nat, gid: GroupId)
    ensures ValidRun(Growing(), NODES, r) && NewRotations(r.states, r.actions)
    ensures r.states[0] == Init(NODES) && k < |r.states|
    ensures gid != Text(0) && NamedIn(r.states[k], gid, "b", "s") && NamedIn(Last(r), Text(0), "b", "s")
    ensures Value(r.states[k], "b", "s") == Value(Last(r), "b", "s") != None
  {
    hide IsRun, Inv, Init, Mutated, NewRotations, Value, NamesBoth;
    var r0, ms, nt1, nt2 := TwoNotices();
    var r1;
    r1, r := ReshareThenWriteBack(Growing(), NODES, r0, "b", "s", nt1);
    k, gid := |r1.actions|, Last(r1).stores["b"].manifests["s"].groupId;
    NoPutsNewRotations(r0, r);
  }
}
