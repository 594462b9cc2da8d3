/** How far each stored member list has followed each holder's rotations, statement by statement:
    which write moves an entry back, and exactly when. */
module Positions {
  import opened Wrappers
  import opened Ids
  import opened Store
  import opened Ratchet
  import opened Mutation
  import opened Custody
  import opened CustodySafety
  import opened Refinement
  import opened CustodyRuns

  // --- Moving back ---

  /** No entry of `after` stands further back than the same entry of `before`. */
  ghost predicate NoneBehind(w: World, before: seq<Member>, after: seq<Member>) {
    |after| == |before| && forall k :: 0 <= k < |after| ==> Depth(w, before[k].pid) <= Depth(w, after[k].pid)
  }

  ghost predicate SamePlace(w: World, a: Member, b: Member) {
    Depth(w, a.pid) == Depth(w, b.pid)
  }

  ghost predicate SamePlaces(w: World, a: seq<Member>, b: seq<Member>) {
    |a| == |b| && forall k :: 0 <= k < |a| ==> SamePlace(w, a[k], b[k])
  }

  ghost predicate HasRow(w: World, n: NodeId, q: Pid) {
    n in w.stores && q in w.stores[n].fragments
  }

  ghost function ListOf(w: World, n: NodeId, q: Pid): seq<Member>
    requires HasRow(w, n, q)
  {
    w.stores[n].fragments[q].members
  }

  /** Row r of the node holds the share that q stands for, under a PID with more rotations behind it. */
  ghost predicate Later(w: World, n: NodeId, q: Pid, r: Pid) {
    && HasRow(w, n, r) && q in w.slots && r in w.slots && w.slots[r] == w.slots[q]
    && Depth(w, q) < Depth(w, r)
  }

  /** Some later row has each entry where the list has it, or further on. */
  ghost predicate LaterHas(w: World, n: NodeId, q: Pid, ms: seq<Member>) {
    exists r :: Later(w, n, q, r) && NoneBehind(w, ms, ListOf(w, n, r))
  }

  /** The list that the step is about to replace, and what it puts there; None when it replaces
      none. A mutation's new row is to replace the row that it read. */
  ghost function Replaces(w: World, a: Action): Option<(seq<Member>, seq<Member>)> {
    if a.id !in w.ops then None
    else
      var op := w.ops[a.id];
      if a.WriteRow? && op.Updating? && a.pid in op.updates && HasRow(w, op.node, a.pid)
      then Some((ListOf(w, op.node, a.pid), op.updates[a.pid]))
      else if a.PutNewRow? && op.Mutating? && HasRow(w, op.node, op.row.pid)
      then Some((ListOf(w, op.node, op.row.pid), op.target.members))
      else if (a.WriteManifest? && op.WritingBack? && op.node in w.stores
               && op.manifest.secretName in w.stores[op.node].manifests)
      then Some((w.stores[op.node].manifests[op.manifest.secretName].members, op.manifest.members))
      else None
  }

  /** The list that the step's operation had read there. */
  ghost function WasRead(w: World, a: Action): seq<Member>
    requires Replaces(w, a).Some?
  {
    var op := w.ops[a.id];
    if op.Updating? then (if a.pid in op.lists then op.lists[a.pid] else [])
    else if op.Mutating? then op.row.members
    else op.source.members
  }

  /** A manifest that is rewritten may meanwhile have been replaced by one over another group. */
  ghost predicate GroupSuperseded(w: World, a: Action) {
    a.WriteManifest? && Replaces(w, a).Some?
      && var op := w.ops[a.id]; w.stores[op.node].manifests[op.manifest.secretName].groupId != op.manifest.groupId
  }

  /** The step deletes a row that is there. */
  ghost predicate Deletes(w: World, a: Action) {
    a.DeleteOldRow? && a.id in w.ops && w.ops[a.id].Mutating? && HasRow(w, w.ops[a.id].node, w.ops[a.id].row.pid)
  }

  /** The step puts a new row. */
  ghost predicate Puts(w: World, a: Action) {
    a.PutNewRow? && a.id in w.ops && w.ops[a.id].Mutating?
  }

  /** And a row that another mutation has put for the same share is already ahead of it. */
  ghost predicate PutsBehind(w: World, a: Action) {
    Puts(w, a) &&
    var op := w.ops[a.id];
    exists r :: Later(w, op.node, op.row.pid, r) && NoneBehind(w, op.target.members, ListOf(w, op.node, r))
                && !NoneBehind(w, ListOf(w, op.node, r), op.target.members)
  }

  /** The step overwrites an entry with one further back, or a manifest with one over an earlier
      group; or deletes a row when no later row has all its entries at least as far on; or puts a
      row that a later one, put by another mutation, is already ahead of. */
  ghost predicate MovesBack(w: World, a: Action) {
    || GroupSuperseded(w, a)
    || (Replaces(w, a).Some? && !NoneBehind(w, Replaces(w, a).value.0, Replaces(w, a).value.1))
    || (Deletes(w, a)
        && var op := w.ops[a.id]; !LaterHas(w, op.node, op.row.pid, ListOf(w, op.node, op.row.pid)))
    || PutsBehind(w, a)
  }

  /** Each entry is still where it was read, or the later list has it there as well or further on. */
  ghost predicate KeptUp(w: World, now: seq<Member>, read: seq<Member>, later: seq<Member>) {
    && |now| == |read| == |later|
    && forall k :: 0 <= k < |now| ==> SamePlace(w, now[k], read[k]) || Depth(w, now[k].pid) <= Depth(w, later[k].pid)
  }

  /** What is overwritten is what was read - or, entry by entry, already what is being written. */
  ghost predicate OverwritesAsRead(w: World, a: Action) {
    Replaces(w, a).Some? ==>
      && !GroupSuperseded(w, a)
      && var now, written, read := Replaces(w, a).value.0, Replaces(w, a).value.1, WasRead(w, a);
      && |now| == |read| == |written|
      && forall k :: 0 <= k < |now| ==> SamePlace(w, now[k], read[k]) || SamePlace(w, now[k], written[k])
  }

  /** Some later row that has all that the mutation had read of the row it deletes has also
      followed what moved there since. */
  ghost predicate DeletesAsRead(w: World, a: Action) {
    Deletes(w, a) ==>
      var op := w.ops[a.id];
      exists r :: Later(w, op.node, op.row.pid, r) && NoneBehind(w, op.row.members, ListOf(w, op.node, r))
                  && KeptUp(w, ListOf(w, op.node, op.row.pid), op.row.members, ListOf(w, op.node, r))
  }

  /** Each row put by another mutation that has all that this one read is still as far as that. */
  ghost predicate PutsAsRead(w: World, a: Action) {
    Puts(w, a) ==>
      var op := w.ops[a.id];
      forall r :: Later(w, op.node, op.row.pid, r) && NoneBehind(w, op.row.members, ListOf(w, op.node, r)) ==>
        SamePlaces(w, ListOf(w, op.node, r), op.row.members)
  }

  /** The step finds what its operation had read. */
  ghost predicate AsRead(w: World, a: Action) {
    OverwritesAsRead(w, a) && DeletesAsRead(w, a) && PutsAsRead(w, a)
  }

  // --- What pending operations know ---

  /** `written` is `read` with some entries moved on by one rotation. */
  ghost predicate OneOn(w: World, read: seq<Member>, written: seq<Member>) {
    && |written| == |read|
    && forall k :: 0 <= k < |written| ==> written[k] == read[k] || Depth(w, written[k].pid) == Depth(w, read[k].pid) + 1
  }

  ghost predicate Slotted(w: World, ms: seq<Member>) {
    forall k :: 0 <= k < |ms| ==> ms[k].pid in w.slots
  }

  ghost predicate Delivered(w: World, pid: Pid) {
    pid in w.slots && w.slots[pid] in w.live
  }

  /** The row is one that was read with the given list: if it is still there its list has not
      fallen behind. */
  ghost predicate RowFollowed(w: World, n: NodeId, pid: Pid, read: seq<Member>) {
    && Delivered(w, pid) && Slotted(w, read)
    && (HasRow(w, n, pid) ==> NoneBehind(w, read, ListOf(w, n, pid)))
  }

  /** The row that was read with the given list, or a later one, has followed it. */
  ghost predicate RowKept(w: World, n: NodeId, pid: Pid, read: seq<Member>) {
    RowFollowed(w, n, pid, read) && (HasRow(w, n, pid) || LaterHas(w, n, pid, read))
  }

  ghost predicate ManifestFollowed(w: World, n: NodeId, read: Manifest) {
    && Slotted(w, read.members) && n in w.stores && read.secretName in w.stores[n].manifests
    && (w.stores[n].manifests[read.secretName].groupId == read.groupId ==>
          NoneBehind(w, read.members, w.stores[n].manifests[read.secretName].members))
  }

  ghost predicate UpdatesFollowed(w: World, n: NodeId, updates: map<Pid, seq<Member>>, lists: map<Pid, seq<Member>>) {
    forall q :: q in updates ==>
      q in lists && Slotted(w, updates[q]) && OneOn(w, lists[q], updates[q]) && RowFollowed(w, n, q, lists[q])
  }

  ghost predicate OpFollowed(w: World, op: Op) {
    match op
    case Updating(n, _, updates, lists) => UpdatesFollowed(w, n, updates, lists)
    case Mutating(n, row, target, stored) =>
      && (!stored ==> target.members == row.members && RowKept(w, n, row.pid, row.members))
      && (stored ==> RowFollowed(w, n, row.pid, row.members) && LaterHas(w, n, row.pid, row.members))
    case WritingBack(n, m, source) =>
      && m.secretName == source.secretName && m.groupId == source.groupId && Slotted(w, m.members)
      && OneOn(w, source.members, m.members) && ManifestFollowed(w, n, source)
    case _ => true
  }

  /** A group that is still being shared out: its later shares are not delivered, and nothing names
      it or is about to. */
  ghost predicate NotYetOut(w: World, id: nat) {
    id in w.ops && w.ops[id].Sharing? ==>
      && (forall i :: w.ops[id].next <= i < |w.ops[id].members| ==> Slot(w.ops[id].group, i) !in w.live)
      && (forall n, name :: n in w.stores && name in w.stores[n].manifests ==>
            w.stores[n].manifests[name].groupId != w.ops[id].group)
      && (forall j :: j in w.ops && j != id && w.ops[j].Sharing? ==> w.ops[j].group != w.ops[id].group)
      && (forall j :: j in w.ops && w.ops[j].WritingBack? ==> w.ops[j].source.groupId != w.ops[id].group)
  }

  ghost predicate Followed(w: World) {
    forall id :: id in w.ops ==> OpFollowed(w, w.ops[id]) && NotYetOut(w, id)
  }

  // --- The condition is exact ---

  lemma Untouched(w: World, ms: seq<Member>)
    ensures OneOn(w, ms, ms)
  {
  }

  lemma PlaceByPlace(w: World, now: seq<Member>, written: seq<Member>, read: seq<Member>)
    requires NoneBehind(w, read, now) && OneOn(w, read, written)
    ensures NoneBehind(w, now, written)
      <==> forall k :: 0 <= k < |now| ==> SamePlace(w, now[k], read[k]) || SamePlace(w, now[k], written[k])
  {
    hide Depth;
  }

  lemma OverwritesIffDisturbed(w: World, a: Action)
    requires a.id in w.ops && OpFollowed(w, w.ops[a.id]) && Replaces(w, a).Some?
    requires a.PutNewRow? && w.ops[a.id].Mutating? ==> !w.ops[a.id].stored
    ensures OverwritesAsRead(w, a)
      <==> !GroupSuperseded(w, a) && NoneBehind(w, Replaces(w, a).value.0, Replaces(w, a).value.1)
  {
    hide Depth, Slotted, Delivered, LaterHas;
    if !GroupSuperseded(w, a) {
      var now, written, read := Replaces(w, a).value.0, Replaces(w, a).value.1, WasRead(w, a);
      assert NoneBehind(w, read, now);
      assert OneOn(w, read, written) by { Untouched(w, read); }
      PlaceByPlace(w, now, written, read);
    }
  }

  lemma NotAhead(w: World, read: seq<Member>, now: seq<Member>)
    requires NoneBehind(w, read, now)
    ensures NoneBehind(w, now, read) <==> SamePlaces(w, now, read)
  {
    hide Depth;
  }

  lemma KeptUpIff(w: World, now: seq<Member>, read: seq<Member>, later: seq<Member>)
    requires NoneBehind(w, read, now) && NoneBehind(w, read, later)
    ensures NoneBehind(w, now, later) <==> KeptUp(w, now, read, later)
  {
    hide Depth;
  }

  lemma ReadIsBehindToo(w: World, read: seq<Member>, now: seq<Member>, later: seq<Member>)
    requires NoneBehind(w, read, now) && NoneBehind(w, now, later)
    ensures NoneBehind(w, read, later)
  {
    hide Depth;
  }

  lemma DeletesIffDisturbed(w: World, a: Action)
    requires a.id in w.ops && OpFollowed(w, w.ops[a.id]) && Deletes(w, a) && w.ops[a.id].stored
    ensures DeletesAsRead(w, a)
      <==> LaterHas(w, w.ops[a.id].node, w.ops[a.id].row.pid, ListOf(w, w.ops[a.id].node, w.ops[a.id].row.pid))
  {
    hide Depth, Slotted, Delivered, NoneBehind, KeptUp;
    var op := w.ops[a.id];
    var now, read := ListOf(w, op.node, op.row.pid), op.row.members;
    forall r | Later(w, op.node, op.row.pid, r)
      ensures NoneBehind(w, now, ListOf(w, op.node, r))
        <==> NoneBehind(w, read, ListOf(w, op.node, r)) && KeptUp(w, now, read, ListOf(w, op.node, r))
    {
      if NoneBehind(w, now, ListOf(w, op.node, r)) {
        ReadIsBehindToo(w, read, now, ListOf(w, op.node, r));
      }
      if NoneBehind(w, read, ListOf(w, op.node, r)) {
        KeptUpIff(w, now, read, ListOf(w, op.node, r));
      }
    }
  }

  lemma PutsIffDisturbed(w: World, a: Action)
    requires a.id in w.ops && OpFollowed(w, w.ops[a.id]) && Puts(w, a) && !w.ops[a.id].stored
    ensures PutsAsRead(w, a) <==> !PutsBehind(w, a)
  {
    hide SamePlaces, LaterHas, Slotted, Delivered, NoneBehind, RowKept, Depth;
    var op := w.ops[a.id];
    forall r | Later(w, op.node, op.row.pid, r) && NoneBehind(w, op.row.members, ListOf(w, op.node, r))
      ensures NoneBehind(w, ListOf(w, op.node, r), op.row.members)
        <==> SamePlaces(w, ListOf(w, op.node, r), op.row.members)
    {
      NotAhead(w, op.row.members, ListOf(w, op.node, r));
    }
  }

  /** Where operations know what they read, a step moves nothing back if and only if it finds what
      was read. */
  lemma BackIffDisturbed(w: World, a: Action)
    requires a.id in w.ops && OpFollowed(w, w.ops[a.id])
    requires w.ops[a.id].Mutating? && a.PutNewRow? ==> !w.ops[a.id].stored
    requires w.ops[a.id].Mutating? && a.DeleteOldRow? ==> w.ops[a.id].stored
    ensures MovesBack(w, a) <==> !AsRead(w, a)
  {
    hide OpFollowed, Depth, LaterHas, NoneBehind, SamePlaces, SamePlace, KeptUp;
    if Replaces(w, a).Some? {
      OverwritesIffDisturbed(w, a);
    }
    if Deletes(w, a) {
      DeletesIffDisturbed(w, a);
    }
    if Puts(w, a) {
      PutsIffDisturbed(w, a);
    }
  }

  // --- What a step that moves nothing back does to the lists ---

  ghost predicate BeingShared(w: World, gid: GroupId) {
    exists id :: id in w.ops && w.ops[id].Sharing? && w.ops[id].group == gid
  }

  ghost predicate RowForward(w: World, w': World, n: NodeId, q: Pid) {
    HasRow(w', n, q) && Delivered(w, q) ==>
      HasRow(w, n, q) && NoneBehind(w', ListOf(w, n, q), ListOf(w', n, q))
  }

  /** A row is still there and not behind itself, or a later one has all that it had. */
  ghost predicate RowCovered(w: World, w': World, n: NodeId, q: Pid) {
    HasRow(w, n, q) && Delivered(w, q) ==>
      || (HasRow(w', n, q) && NoneBehind(w', ListOf(w, n, q), ListOf(w', n, q)))
      || LaterHas(w', n, q, ListOf(w, n, q))
  }

  ghost predicate ManifestForward(w: World, w': World, n: NodeId, name: Name) {
    n in w.stores && name in w.stores[n].manifests ==>
      && n in w'.stores && name in w'.stores[n].manifests
      && var m, m' := w.stores[n].manifests[name], w'.stores[n].manifests[name];
      (m'.groupId == m.groupId && NoneBehind(w', m.members, m'.members)) || BeingShared(w, m'.groupId)
  }

  /** Lists that were there are still where they were or further on; a manifest may have given way
      to one over a group that was just shared out. */
  ghost predicate ListsForward(w: World, w': World) {
    && (forall n, q :: RowForward(w, w', n, q) && RowCovered(w, w', n, q))
    && (forall n, name :: ManifestForward(w, w', n, name))
  }

  /** All stored lists name known PIDs. */
  ghost predicate AllSlotted(w: World) {
    && (forall n, q :: HasRow(w, n, q) ==> Delivered(w, q) && Slotted(w, ListOf(w, n, q)))
    && (forall n, name :: n in w.stores && name in w.stores[n].manifests ==>
          Slotted(w, w.stores[n].manifests[name].members))
  }

  lemma MembersSlotted(dir: Directory, w: World, gid: GroupId, ms: seq<Member>)
    requires MembersOk(dir, w, gid, ms)
    ensures Slotted(w, ms)
  {
  }

  lemma InvSlotted(dir: Directory, w: World)
    requires Inv(dir, w)
    ensures AllSlotted(w)
  {
    hide Inv;
    forall n, q | HasRow(w, n, q)
      ensures Delivered(w, q) && Slotted(w, ListOf(w, n, q))
    {
      TheRow(dir, w, n, q);
      RowSlot(dir, w, n, w.stores[n].fragments[q]);
      RowParts(dir, w, n, w.stores[n].fragments[q]);
      MembersSlotted(dir, w, w.stores[n].fragments[q].groupId, w.stores[n].fragments[q].members);
    }
    forall n, name | n in w.stores && name in w.stores[n].manifests
      ensures Slotted(w, w.stores[n].manifests[name].members)
    {
      TheManifest(dir, w, n, name);
      MembersSlotted(dir, w, w.stores[n].manifests[name].groupId, w.stores[n].manifests[name].members);
    }
  }

  // --- Pending operations keep up with the lists ---

  lemma SlottedStays(w: World, w': World, ms: seq<Member>)
    requires Extends(w, w') && Slotted(w, ms)
    ensures Slotted(w', ms)
  {
  }

  lemma NoneBehindTrans(w: World, w': World, a: seq<Member>, b: seq<Member>, c: seq<Member>)
    requires Extends(w, w') && Slotted(w, a) && Slotted(w, b) && NoneBehind(w, a, b) && NoneBehind(w', b, c)
    ensures NoneBehind(w', a, c)
  {
    hide Depth;
    assert forall p :: p in w.slots ==> Depth(w', p) == Depth(w, p);
  }

  lemma OneOnStays(w: World, w': World, a: seq<Member>, b: seq<Member>)
    requires Extends(w, w') && Slotted(w, a) && Slotted(w, b) && OneOn(w, a, b)
    ensures OneOn(w', a, b)
  {
    hide Depth;
    assert forall p :: p in w.slots ==> Depth(w', p) == Depth(w, p);
  }

  lemma DeliveredStays(w: World, w': World, q: Pid)
    requires Extends(w, w') && Delivered(w, q)
    ensures Delivered(w', q)
  {
  }

  lemma RowFollowedStays(w: World, w': World, n: NodeId, q: Pid, read: seq<Member>)
    requires Extends(w, w') && AllSlotted(w) && RowForward(w, w', n, q) && RowFollowed(w, n, q, read)
    ensures RowFollowed(w', n, q, read)
  {
    hide NoneBehind, Extends, Slotted;
    SlottedStays(w, w', read);
    DeliveredStays(w, w', q);
    if HasRow(w', n, q) {
      NoneBehindTrans(w, w', read, ListOf(w, n, q), ListOf(w', n, q));
    }
  }

  lemma LaterStays(w: World, w': World, n: NodeId, q: Pid, r: Pid)
    requires Extends(w, w') && Later(w, n, q, r) && HasRow(w', n, r)
    ensures Later(w', n, q, r)
  {
  }

  lemma LaterTrans(w: World, w': World, n: NodeId, q: Pid, r: Pid, r': Pid)
    requires Extends(w, w') && Later(w, n, q, r) && Later(w', n, r, r')
    ensures Later(w', n, q, r')
  {
  }

  /** What a later row has is not lost. */
  lemma LaterHasStays(w: World, w': World, n: NodeId, q: Pid, read: seq<Member>)
    requires Extends(w, w') && AllSlotted(w) && ListsForward(w, w') && Slotted(w, read) && LaterHas(w, n, q, read)
    ensures LaterHas(w', n, q, read)
  {
    hide NoneBehind, Extends, Slotted, Depth, RowForward, ManifestForward, Delivered;
    var r :| Later(w, n, q, r) && NoneBehind(w, read, ListOf(w, n, r));
    assert RowCovered(w, w', n, r);
    if HasRow(w', n, r) && NoneBehind(w', ListOf(w, n, r), ListOf(w', n, r)) {
      LaterStays(w, w', n, q, r);
      NoneBehindTrans(w, w', read, ListOf(w, n, r), ListOf(w', n, r));
    } else {
      var r' :| Later(w', n, r, r') && NoneBehind(w', ListOf(w, n, r), ListOf(w', n, r'));
      LaterTrans(w, w', n, q, r, r');
      NoneBehindTrans(w, w', read, ListOf(w, n, r), ListOf(w', n, r'));
    }
  }

  lemma RowKeptStays(w: World, w': World, n: NodeId, q: Pid, read: seq<Member>)
    requires Extends(w, w') && AllSlotted(w) && ListsForward(w, w') && RowKept(w, n, q, read)
    ensures RowKept(w', n, q, read)
  {
    hide NoneBehind, Extends, Slotted, Depth, ManifestForward, Delivered;
    assert RowForward(w, w', n, q) && RowCovered(w, w', n, q);
    RowFollowedStays(w, w', n, q, read);
    if HasRow(w, n, q) && !HasRow(w', n, q) {
      var r :| Later(w', n, q, r) && NoneBehind(w', ListOf(w, n, q), ListOf(w', n, r));
      NoneBehindTrans(w, w', read, ListOf(w, n, q), ListOf(w', n, r));
    } else if !HasRow(w', n, q) {
      LaterHasStays(w, w', n, q, read);
    }
  }

  lemma ManifestFollowedStays(w: World, w': World, n: NodeId, read: Manifest)
    requires Extends(w, w') && AllSlotted(w) && ManifestForward(w, w', n, read.secretName)
    requires ManifestFollowed(w, n, read) && !BeingShared(w, read.groupId)
    ensures ManifestFollowed(w', n, read)
  {
    hide NoneBehind, Extends, Slotted, BeingShared;
    SlottedStays(w, w', read.members);
    var m, m' := w.stores[n].manifests[read.secretName], w'.stores[n].manifests[read.secretName];
    if m'.groupId == read.groupId {
      NoneBehindTrans(w, w', read.members, m.members, m'.members);
    }
  }

  lemma ReadSlotted(w: World, n: NodeId, q: Pid, read: seq<Member>)
    requires RowFollowed(w, n, q, read)
    ensures Slotted(w, read)
  {
  }

  lemma SourceSlotted(w: World, n: NodeId, read: Manifest)
    requires ManifestFollowed(w, n, read)
    ensures Slotted(w, read.members)
  {
  }

  /** What a pending operation knows stays true in a step that is not its own and moves nothing back. */
  lemma OpFollowedStays(w: World, w': World, op: Op)
    requires Extends(w, w') && AllSlotted(w) && ListsForward(w, w') && OpFollowed(w, op)
    requires op.WritingBack? ==> !BeingShared(w, op.source.groupId)
    ensures OpFollowed(w', op)
  {
    hide Extends, Slotted, BeingShared, RowFollowed, RowKept, LaterHas, ManifestFollowed, OneOn, RowForward, RowCovered,
      ManifestForward, AllSlotted;
    match op
    case Updating(n, _, updates, lists) =>
      forall q | q in updates
        ensures Slotted(w', updates[q]) && OneOn(w', lists[q], updates[q]) && RowFollowed(w', n, q, lists[q])
      {
        SlottedStays(w, w', updates[q]);
        ReadSlotted(w, n, q, lists[q]);
        OneOnStays(w, w', lists[q], updates[q]);
        assert RowForward(w, w', n, q);
        RowFollowedStays(w, w', n, q, lists[q]);
      }
    case Mutating(n, row, target, stored) =>
      if stored {
        assert RowForward(w, w', n, row.pid);
        ReadSlotted(w, n, row.pid, row.members);
        RowFollowedStays(w, w', n, row.pid, row.members);
        LaterHasStays(w, w', n, row.pid, row.members);
      } else {
        RowKeptStays(w, w', n, row.pid, row.members);
      }
    case WritingBack(n, m, source) =>
      SlottedStays(w, w', m.members);
      SourceSlotted(w, n, source);
      OneOnStays(w, w', source.members, m.members);
      assert ManifestForward(w, w', n, source.secretName);
      ManifestFollowedStays(w, w', n, source);
    case _ =>
  }

  // --- Lists after each kind of step ---

  lemma NoneBehindItself(w: World, ms: seq<Member>)
    ensures NoneBehind(w, ms, ms)
  {
  }

  lemma SameStoresForward(w: World, w': World)
    requires w'.stores == w.stores
    ensures ListsForward(w, w')
  {
    hide Depth, BeingShared, Delivered, LaterHas;
  }

  /** Storing a row: it is the first one of its share under this PID, or its list is not behind. */
  lemma PutRowForward(w: World, w': World, n: NodeId, f: Fragment)
    requires n in w.stores && w'.stores == w.stores[n := PutFragment(w.stores[n], f)]
    requires Delivered(w, f.pid) ==>
      f.pid in w.stores[n].fragments && NoneBehind(w', w.stores[n].fragments[f.pid].members, f.members)
    ensures ListsForward(w, w')
  {
    hide Depth, BeingShared, Delivered, LaterHas;
  }

  lemma DeleteRowForward(w: World, w': World, n: NodeId, pid: Pid)
    requires n in w.stores && w'.stores == w.stores[n := DeleteFragment(w.stores[n], pid)]
    requires HasRow(w, n, pid) ==> LaterHas(w', n, pid, ListOf(w, n, pid))
    ensures ListsForward(w, w')
  {
    hide Depth, BeingShared, Delivered, LaterHas;
  }

  lemma PutManifestForward(w: World, w': World, n: NodeId, m: Manifest)
    requires n in w.stores && w'.stores == w.stores[n := PutManifest(w.stores[n], m)]
    requires m.secretName in w.stores[n].manifests && !BeingShared(w, m.groupId) ==>
      && w.stores[n].manifests[m.secretName].groupId == m.groupId
      && NoneBehind(w', w.stores[n].manifests[m.secretName].members, m.members)
    ensures ListsForward(w, w')
  {
    hide Depth, BeingShared, Delivered, LaterHas;
  }

  /** Rotated PIDs are new. */
  ghost predicate NewRotation(w: World, a: Action) {
    a.PutNewRow? && a.id in w.ops && w.ops[a.id].Mutating? ==> w.ops[a.id].target.pid !in w.slots
  }

  lemma FirstDelivery(dir: Directory, w: World, id: nat)
    requires Inv(dir, w) && id in w.ops && w.ops[id].Sharing?
    requires NotYetOut(w, id) && w.ops[id].next < |w.ops[id].members|
    ensures !Delivered(w, w.ops[id].members[w.ops[id].next].pid)
  {
    hide Inv;
    TheOp(dir, w, id);
  }

  lemma DeliverForward(p: Primitives, dir: Directory, w: World, a: Action)
    requires Inv(dir, w) && Enabled(p, dir, w, a) && a.Deliver? && NotYetOut(w, a.id)
    ensures ListsForward(w, Next(p, dir, w, a))
  {
    hide Inv, PutFragment, ListsForward, DeliverStep, Delivered, ShareOf;
    if a.outcome.Failed? {
      SameStoresForward(w, Next(p, dir, w, a));
    } else {
      TheOp(dir, w, a.id);
      var op := w.ops[a.id];
      var row := DeliveredRow(w.groups[op.group], op, a.key, a.nonce, a.chainId);
      DeliverStepIs(w, a.id, op, row, a.outcome.ReplyLost?);
      FirstDelivery(dir, w, a.id);
      PutRowForward(w, Next(p, dir, w, a), op.members[op.next].nodeId, row);
    }
  }

  lemma PutNewRowForward(p: Primitives, dir: Directory, w: World, a: Action)
    requires Enabled(p, dir, w, a) && a.PutNewRow? && NewRotation(w, a)
    ensures ListsForward(w, Next(p, dir, w, a))
  {
    hide PutFragment, ListsForward, RotationUsable;
    PutRowForward(w, Next(p, dir, w, a), w.ops[a.id].node, w.ops[a.id].target);
  }

  /** Deleting a row leaves the later ones. */
  lemma LaterRemains(w: World, w': World, n: NodeId, q: Pid, ms: seq<Member>)
    requires n in w.stores && w'.stores == w.stores[n := DeleteFragment(w.stores[n], q)]
    requires w'.slots == w.slots && w'.depths == w.depths && LaterHas(w, n, q, ms)
    ensures LaterHas(w', n, q, ms)
  {
    var r :| Later(w, n, q, r) && NoneBehind(w, ms, ListOf(w, n, r));
    assert Later(w', n, q, r) && NoneBehind(w', ms, ListOf(w', n, r));
  }

  lemma DeleteOldRowForward(p: Primitives, dir: Directory, w: World, a: Action)
    requires Enabled(p, dir, w, a) && a.DeleteOldRow? && !MovesBack(w, a)
    ensures ListsForward(w, Next(p, dir, w, a))
  {
    hide DeleteFragment, ListsForward, LaterHas;
    var op, w' := w.ops[a.id], Next(p, dir, w, a);
    if HasRow(w, op.node, op.row.pid) {
      LaterRemains(w, w', op.node, op.row.pid, ListOf(w, op.node, op.row.pid));
    }
    DeleteRowForward(w, w', op.node, op.row.pid);
  }

  lemma SameDepths(w: World, w': World, before: seq<Member>, after: seq<Member>)
    requires w'.depths == w.depths
    ensures NoneBehind(w, before, after) <==> NoneBehind(w', before, after)
  {
  }

  lemma WriteRowForward(p: Primitives, dir: Directory, w: World, a: Action)
    requires Inv(dir, w) && Enabled(p, dir, w, a) && a.WriteRow? && !MovesBack(w, a)
    ensures ListsForward(w, Next(p, dir, w, a))
  {
    hide Inv, ListsForward, NoneBehind;
    var op, w' := w.ops[a.id], Next(p, dir, w, a);
    var rows := w.stores[op.node].fragments;
    if a.pid in rows {
      TheRow(dir, w, op.node, a.pid);
      SameDepths(w, w', rows[a.pid].members, op.updates[a.pid]);
      PutRowForward(w, w', op.node, rows[a.pid].(members := op.updates[a.pid]));
    } else {
      SameStoresForward(w, w');
    }
  }

  lemma CommitForward(p: Primitives, dir: Directory, w: World, a: Action)
    requires Enabled(p, dir, w, a) && a.Commit?
    ensures ListsForward(w, Next(p, dir, w, a))
  {
    hide PutManifest, ListsForward;
    PutManifestForward(w, Next(p, dir, w, a), w.ops[a.id].owner, NewManifest(w.groups[w.ops[a.id].group], w.ops[a.id]));
  }

  lemma WriteManifestForward(p: Primitives, dir: Directory, w: World, a: Action)
    requires Enabled(p, dir, w, a) && a.WriteManifest? && !MovesBack(w, a)
    ensures ListsForward(w, Next(p, dir, w, a))
  {
    hide PutManifest, ListsForward, NoneBehind;
    var op, w' := w.ops[a.id], Next(p, dir, w, a);
    if op.manifest.secretName in w.stores[op.node].manifests {
      SameDepths(w, w', w.stores[op.node].manifests[op.manifest.secretName].members, op.manifest.members);
    }
    PutManifestForward(w, w', op.node, op.manifest);
  }

  lemma OpsOnlyForward(p: Primitives, dir: Directory, w: World, a: Action)
    requires Enabled(p, dir, w, a) && !WritesManifest(a) && !WritesRows(a)
    ensures ListsForward(w, Next(p, dir, w, a))
  {
    hide ListsForward, SharingEnabled, CollectResult, Collected, CanAnswer, Answer, MembersFor, Mutated, Rotated,
      RotateManifest, Custody.Lists;
    SameStoresForward(w, Next(p, dir, w, a));
  }

  /** A step that moves nothing back leaves every list where it was or further on. */
  lemma StepForward(p: Primitives, dir: Directory, w: World, a: Action)
    requires Inv(dir, w) && Enabled(p, dir, w, a) && NotYetOut(w, a.id) && !MovesBack(w, a) && NewRotation(w, a)
    ensures ListsForward(w, Next(p, dir, w, a))
  {
    hide Inv, Enabled, Next, ListsForward, NotYetOut, MovesBack, NewRotation;
    match a {
      case Deliver(_, _, _, _, _) => DeliverForward(p, dir, w, a);
      case PutNewRow(_) => PutNewRowForward(p, dir, w, a);
      case DeleteOldRow(_) => DeleteOldRowForward(p, dir, w, a);
      case WriteRow(_, _) => WriteRowForward(p, dir, w, a);
      case Commit(_) => CommitForward(p, dir, w, a);
      case WriteManifest(_) => WriteManifestForward(p, dir, w, a);
      case _ => OpsOnlyForward(p, dir, w, a);
    }
  }

  // --- What the moving operation knows after its step ---

  lemma BeginMutationFollowed(p: Primitives, dir: Directory, w: World, a: Action)
    requires Inv(dir, w) && Enabled(p, dir, w, a) && a.BeginMutation?
    ensures OpFollowed(Next(p, dir, w, a), Next(p, dir, w, a).ops[a.id])
  {
    hide Inv, MembersOk, ShareOf;
    TheRow(dir, w, a.n, a.pid);
    InvSlotted(dir, w);
    assert HasRow(w, a.n, a.pid);
  }

  lemma RowGoesForward(w: World, w': World, n: NodeId, q: Pid)
    requires ListsForward(w, w')
    ensures RowForward(w, w', n, q)
  {
    hide RowForward, RowCovered, ManifestForward;
  }

  lemma LaterRowHas(w: World, n: NodeId, q: Pid, r: Pid, ms: seq<Member>)
    requires Later(w, n, q, r) && NoneBehind(w, ms, ListOf(w, n, r))
    ensures LaterHas(w, n, q, ms)
  {
    hide NoneBehind, Depth;
  }

  lemma PutNewRowOp(p: Primitives, dir: Directory, w: World, a: Action)
    requires Enabled(p, dir, w, a) && a.PutNewRow?
    ensures a.id in w.ops && w.ops[a.id].Mutating?
  {
  }

  lemma PutLater(w: World, w': World, n: NodeId, q: Pid, f: Fragment)
    requires n in w.stores && q in w.slots && f.pid !in w.slots
    requires w'.stores == w.stores[n := PutFragment(w.stores[n], f)]
    requires w'.slots == w.slots[f.pid := w.slots[q]] && w'.depths == w.depths[f.pid := Depth(w, q) + 1]
    ensures Later(w', n, q, f.pid) && ListOf(w', n, f.pid) == f.members
    ensures HasRow(w', n, q) ==> HasRow(w, n, q) && ListOf(w', n, q) == ListOf(w, n, q)
  {
  }

  /** A row that has just been put has all that was read of its predecessor. */
  lemma PutNewRowFollowed(p: Primitives, dir: Directory, w: World, a: Action)
    requires Inv(dir, w) && Enabled(p, dir, w, a) && a.PutNewRow? && NewRotation(w, a) && OpFollowed(w, w.ops[a.id])
    requires ListsForward(w, Next(p, dir, w, a))
    ensures OpFollowed(Next(p, dir, w, a), Next(p, dir, w, a).ops[a.id])
  {
    hide Inv, PutFragment, RotationUsable, LaterHas, NoneBehind, Slotted, Delivered, Extends, ListsForward, RowForward;
    var op, w' := w.ops[a.id], Next(p, dir, w, a);
    NextExtends(p, dir, w, a);
    InvSlotted(dir, w);
    RowGoesForward(w, w', op.node, op.row.pid);
    RowFollowedStays(w, w', op.node, op.row.pid, op.row.members);
    PutLater(w, w', op.node, op.row.pid, op.target);
    NoneBehindItself(w', op.row.members);
    LaterRowHas(w', op.node, op.row.pid, op.target.pid, op.row.members);
  }

  lemma RotatedOneOn(dir: Directory, w: World, nt: Notice, ms: seq<Member>)
    requires NoticeOk(dir, w, nt) && Slotted(w, ms)
    ensures var r := Rotated(ms, nt.oldPid, nt.newPid, nt.newEndpoint); OneOn(w, ms, r) && Slotted(w, r)
  {
    hide Depth;
  }

  lemma SameSlots(w: World, w': World, a: seq<Member>, b: seq<Member>)
    requires w' == w.(ops := w'.ops) && Slotted(w, a) && Slotted(w, b)
    ensures Slotted(w', a) && Slotted(w', b) && (OneOn(w, a, b) ==> OneOn(w', a, b))
  {
  }

  lemma SameDelivered(w: World, w': World, q: Pid)
    requires w' == w.(ops := w'.ops)
    ensures Delivered(w', q) == Delivered(w, q)
  {
  }

  lemma RowDelivered(dir: Directory, w: World, n: NodeId, q: Pid)
    requires Inv(dir, w) && n in w.stores && q in w.stores[n].fragments
    ensures Delivered(w, q)
  {
    hide Inv, RowOk;
    TheRow(dir, w, n, q);
    RowSlot(dir, w, n, w.stores[n].fragments[q]);
  }

  lemma ReadRowsFollowed(p: Primitives, dir: Directory, w: World, a: Action)
    requires Inv(dir, w) && Enabled(p, dir, w, a) && a.ReadRows?
    ensures OpFollowed(Next(p, dir, w, a), Next(p, dir, w, a).ops[a.id])
  {
    hide Inv, Rotated, Slotted, OneOn, NoticeOk, Custody.Lists, Delivered;
    var w' := Next(p, dir, w, a);
    var fs := w.stores[a.n].fragments;
    KnownNotice(dir, w, a.nt);
    InvSlotted(dir, w);
    var op := w'.ops[a.id];
    forall q | q in op.updates
      ensures Slotted(w', op.updates[q]) && OneOn(w', op.lists[q], op.updates[q])
      ensures RowFollowed(w', a.n, q, op.lists[q])
    {
      assert HasRow(w, a.n, q);
      RotatedOneOn(dir, w, a.nt, fs[q].members);
      SameSlots(w, w', fs[q].members, op.updates[q]);
      RowDelivered(dir, w, a.n, q);
      SameDelivered(w, w', q);
      NoneBehindItself(w', fs[q].members);
    }
  }

  lemma ReadManifestFollowed(p: Primitives, dir: Directory, w: World, a: Action)
    requires Inv(dir, w) && Enabled(p, dir, w, a) && a.ReadManifest?
    ensures OpFollowed(Next(p, dir, w, a), Next(p, dir, w, a).ops[a.id])
  {
    hide Inv, Rotated, Slotted, OneOn, NoticeOk, ManifestOk;
    var w' := Next(p, dir, w, a);
    var m := w.stores[a.n].manifests[a.name];
    KnownNotice(dir, w, a.nt);
    InvSlotted(dir, w);
    TheManifest(dir, w, a.n, a.name);
    RotatedOneOn(dir, w, a.nt, m.members);
    SameSlots(w, w', m.members, Rotated(m.members, a.nt.oldPid, a.nt.newPid, a.nt.newEndpoint));
    NoneBehindItself(w', m.members);
  }

  lemma WriteRowOp(p: Primitives, dir: Directory, w: World, a: Action)
    requires Enabled(p, dir, w, a) && a.WriteRow?
    ensures a.id in w.ops && w.ops[a.id].Updating?
    ensures a.id in Next(p, dir, w, a).ops
    ensures Next(p, dir, w, a).ops[a.id] == w.ops[a.id].(updates := w.ops[a.id].updates - {a.pid})
  {
  }

  lemma WriteRowFollowed(p: Primitives, dir: Directory, w: World, a: Action)
    requires Inv(dir, w) && a.id in w.ops && OpFollowed(w, w.ops[a.id])
    requires Enabled(p, dir, w, a) && a.WriteRow? && ListsForward(w, Next(p, dir, w, a))
    ensures OpFollowed(Next(p, dir, w, a), Next(p, dir, w, a).ops[a.id])
  {
    hide Inv, Enabled, ListsForward, Slotted, OneOn, RowFollowed, Next, Extends;
    var w' := Next(p, dir, w, a);
    NextExtends(p, dir, w, a);
    InvSlotted(dir, w);
    WriteRowOp(p, dir, w, a);
    OpFollowedStays(w, w', w.ops[a.id]);
  }

  lemma OthersFollowed(p: Primitives, dir: Directory, w: World, a: Action)
    requires Enabled(p, dir, w, a) && !a.BeginMutation? && !a.PutNewRow? && !a.ReadRows? && !a.ReadManifest?
    requires !a.WriteRow? && a.id in Next(p, dir, w, a).ops
    ensures OpFollowed(Next(p, dir, w, a), Next(p, dir, w, a).ops[a.id])
  {
    hide SharingEnabled, CollectResult, Collected, CanAnswer, Answer, MembersFor, DeliveredRow, Mutated, Rotated,
      GroupOk, RotationUsable, PutManifest, PutFragment, DeleteFragment, NewManifest, UpdatesFollowed, RowFollowed,
      ManifestFollowed, OneOn;
  }

  lemma MovedFollowed(p: Primitives, dir: Directory, w: World, a: Action)
    requires Inv(dir, w) && Enabled(p, dir, w, a) && ListsForward(w, Next(p, dir, w, a)) && NewRotation(w, a)
    requires a.id in w.ops ==> OpFollowed(w, w.ops[a.id])
    requires a.id in Next(p, dir, w, a).ops
    ensures OpFollowed(Next(p, dir, w, a), Next(p, dir, w, a).ops[a.id])
  {
    hide Inv, Enabled, Next, ListsForward, OpFollowed, NewRotation;
    match a {
      case PutNewRow(_) =>
        PutNewRowOp(p, dir, w, a);
        PutNewRowFollowed(p, dir, w, a);
      case BeginMutation(_, _, _, _) => BeginMutationFollowed(p, dir, w, a);
      case ReadRows(_, _, _) => ReadRowsFollowed(p, dir, w, a);
      case ReadManifest(_, _, _, _) => ReadManifestFollowed(p, dir, w, a);
      case WriteRow(_, _) =>
        WriteRowOp(p, dir, w, a);
        WriteRowFollowed(p, dir, w, a);
      case _ => OthersFollowed(p, dir, w, a);
    }
  }

  // --- Groups that are still being shared out ---

  /** What a step can make live, name in a manifest, share out or be about to write back. */
  lemma LiveAfter(p: Primitives, dir: Directory, w: World, a: Action)
    requires Inv(dir, w) && Enabled(p, dir, w, a)
    ensures forall s :: s in Next(p, dir, w, a).live ==>
      s in w.live || (a.Deliver? && a.id in w.ops && w.ops[a.id].Sharing? && !a.outcome.Failed?
                      && s == Slot(w.ops[a.id].group, w.ops[a.id].next))
  {
    hide Inv, SharingEnabled, CollectResult, Collected, CanAnswer, Answer, MembersFor, DeliveredRow, Mutated, Rotated,
      GroupOk, RotationUsable, PutManifest, PutFragment, DeleteFragment, NewManifest, RotateManifest, Custody.Lists,
      RowOk;
    if a.PutNewRow? {
      TheOp(dir, w, a.id);
      RowSlot(dir, w, w.ops[a.id].node, w.ops[a.id].row);
    }
  }

  ghost predicate NamedIn(w: World, gid: GroupId, n: NodeId, name: Name) {
    n in w.stores && name in w.stores[n].manifests && w.stores[n].manifests[name].groupId == gid
  }

  lemma NamedAfter(p: Primitives, dir: Directory, w: World, a: Action, gid: GroupId, n: NodeId, name: Name)
    requires Enabled(p, dir, w, a) && NamedIn(Next(p, dir, w, a), gid, n, name)
    ensures NamedIn(w, gid, n, name)
      || (a.Commit? && a.id in w.ops && w.ops[a.id].Sharing? && gid == w.ops[a.id].group)
      || (a.WriteManifest? && a.id in w.ops && w.ops[a.id].WritingBack? && gid == w.ops[a.id].manifest.groupId)
  {
    hide SharingEnabled, CollectResult, Collected, CanAnswer, Answer, MembersFor, DeliveredRow, Mutated, Rotated,
      GroupOk, RotationUsable, PutFragment, DeleteFragment, RotateManifest, Custody.Lists, DeliverStep, PutStep,
      DeleteStep, WriteRowStep, Extends;
    if WritesRows(a) {
      RowStepsFrame(p, dir, w, a);
    }
  }

  lemma SharedAfter(p: Primitives, dir: Directory, w: World, a: Action, id: nat)
    requires Enabled(p, dir, w, a) && id in Next(p, dir, w, a).ops
    ensures var op' := Next(p, dir, w, a).ops[id];
      && (op'.Sharing? ==>
            || (id in w.ops && w.ops[id].Sharing? && op'.group == w.ops[id].group && op'.members == w.ops[id].members
                && op'.next == if a.Deliver? && id == a.id then w.ops[id].next + 1 else w.ops[id].next)
            || (id == a.id && (a.BeginSharing? || a.BeginResharing?) && op'.group == a.gid && op'.next == 0))
      && (op'.WritingBack? ==>
            || (id in w.ops && w.ops[id] == op')
            || (id == a.id && a.ReadManifest? && NamedIn(w, op'.source.groupId, a.n, a.name)))
  {
    hide SharingEnabled, CollectResult, Collected, CanAnswer, Answer, MembersFor, DeliveredRow, Mutated, Rotated,
      GroupOk, RotationUsable, PutManifest, PutFragment, DeleteFragment, NewManifest, RotateManifest, Custody.Lists,
      DeliverStep, PutStep, DeleteStep, WriteRowStep;
    if WritesRows(a) {
      RowStepsOps(p, dir, w, a);
    }
  }

  /** A group that is not known yet is nowhere. */
  lemma UnknownGroup(dir: Directory, w: World, gid: GroupId)
    requires Inv(dir, w) && gid !in w.groups
    ensures forall n, name :: !NamedIn(w, gid, n, name)
    ensures forall i :: Slot(gid, i) !in w.live
    ensures forall id :: id in w.ops && w.ops[id].Sharing? ==> w.ops[id].group != gid
    ensures forall id :: id in w.ops && w.ops[id].WritingBack? ==> w.ops[id].manifest.groupId != gid
  {
    hide Inv, ManifestOk, MembersOk;
    ManifestGroups(dir, w);
    forall s | s in w.live
      ensures s.group in w.groups
    {
      TheSlot(dir, w, s);
    }
    forall id | id in w.ops
      ensures w.ops[id].Sharing? ==> w.ops[id].group in w.groups
      ensures w.ops[id].WritingBack? ==> w.ops[id].manifest.groupId in w.groups
    {
      TheOp(dir, w, id);
      match w.ops[id]
      case Sharing(_, _, _, gid, ms, _, _) => MembersGroup(dir, w, gid, ms);
      case WritingBack(_, m, _) => ManifestGroup(dir, w, m);
      case _ =>
    }
  }

  /** The pieces of what is known about a group still being shared out, one at a time. */
  lemma NotYetOutParts(w: World, id: nat)
    requires NotYetOut(w, id) && id in w.ops && w.ops[id].Sharing?
    ensures forall i :: w.ops[id].next <= i < |w.ops[id].members| ==> Slot(w.ops[id].group, i) !in w.live
    ensures forall n, name :: !NamedIn(w, w.ops[id].group, n, name)
    ensures forall j :: j in w.ops && j != id && w.ops[j].Sharing? ==> w.ops[j].group != w.ops[id].group
    ensures forall j :: j in w.ops && w.ops[j].WritingBack? ==> w.ops[j].source.groupId != w.ops[id].group
  {
  }

  lemma StillNotOut(w: World, id: nat)
    requires id in w.ops && w.ops[id].Sharing?
    requires forall i :: w.ops[id].next <= i < |w.ops[id].members| ==> Slot(w.ops[id].group, i) !in w.live
    requires forall n, name :: !NamedIn(w, w.ops[id].group, n, name)
    requires forall j :: j in w.ops && j != id && w.ops[j].Sharing? ==> w.ops[j].group != w.ops[id].group
    requires forall j :: j in w.ops && w.ops[j].WritingBack? ==> w.ops[j].source.groupId != w.ops[id].group
    ensures NotYetOut(w, id)
  {
    forall n, name | n in w.stores && name in w.stores[n].manifests
      ensures w.stores[n].manifests[name].groupId != w.ops[id].group
    {
      assert !NamedIn(w, w.ops[id].group, n, name);
    }
  }

  lemma FollowedParts(w: World, id: nat)
    requires Followed(w) && id in w.ops
    ensures OpFollowed(w, w.ops[id]) && NotYetOut(w, id)
    ensures w.ops[id].WritingBack? ==> w.ops[id].manifest.groupId == w.ops[id].source.groupId
  {
    hide UpdatesFollowed, RowFollowed, ManifestFollowed, OneOn, NotYetOut;
  }

  lemma BeginsUnknown(p: Primitives, dir: Directory, w: World, a: Action)
    requires Enabled(p, dir, w, a) && (a.BeginSharing? || a.BeginResharing?)
    ensures a.gid !in w.groups
    ensures var w' := Next(p, dir, w, a); a.id in w'.ops && w'.ops[a.id].Sharing? && w'.ops[a.id].group == a.gid
  {
    hide CollectResult, Collected, MembersFor, GroupOk;
  }

  /** A sharing that has just begun. */
  lemma BegunNotOut(p: Primitives, dir: Directory, w: World, a: Action)
    requires Inv(dir, w) && Enabled(p, dir, w, a) && (a.BeginSharing? || a.BeginResharing?) && Followed(w)
    ensures NotYetOut(Next(p, dir, w, a), a.id)
  {
    hide Inv, Enabled, Next, Followed, NotYetOut, OpFollowed, NamedIn;
    var w' := Next(p, dir, w, a);
    BeginsUnknown(p, dir, w, a);
    UnknownGroup(dir, w, a.gid);
    LiveAfter(p, dir, w, a);
    forall n, name
      ensures !NamedIn(w', a.gid, n, name)
    {
      if NamedIn(w', a.gid, n, name) {
        NamedAfter(p, dir, w, a, a.gid, n, name);
      }
    }
    forall j | j in w'.ops
      ensures j != a.id && w'.ops[j].Sharing? ==> w'.ops[j].group != a.gid
      ensures w'.ops[j].WritingBack? ==> w'.ops[j].source.groupId != a.gid
    {
      SharedAfter(p, dir, w, a, j);
      if j in w.ops {
        FollowedParts(w, j);
      }
    }
    StillNotOut(w', a.id);
  }

  /** The group of a pending sharing is known, so no other sharing begins with it. */
  lemma KnownSharing(p: Primitives, dir: Directory, w: World, a: Action, id: nat)
    requires Inv(dir, w) && Enabled(p, dir, w, a) && id in w.ops && w.ops[id].Sharing?
    ensures (a.BeginSharing? || a.BeginResharing?) ==> a.gid != w.ops[id].group
    ensures a.BeginSharing? ==> id != a.id
    ensures a.BeginResharing? ==> id != a.id
    ensures a.Commit? && id == a.id ==> id !in Next(p, dir, w, a).ops
  {
    hide Inv, CollectResult, Collected, MembersFor, GroupOk, MembersOk, PutManifest, NewManifest;
    TheOp(dir, w, id);
    MembersGroup(dir, w, w.ops[id].group, w.ops[id].members);
  }

  /** A sharing that goes on. */
  lemma StaysNotOut(p: Primitives, dir: Directory, w: World, a: Action, id: nat)
    requires Inv(dir, w) && Enabled(p, dir, w, a) && Followed(w)
    requires id in w.ops && w.ops[id].Sharing? && id in Next(p, dir, w, a).ops && Next(p, dir, w, a).ops[id].Sharing?
    requires id == a.id ==> !a.BeginSharing? && !a.BeginResharing? && !a.Commit?
    ensures NotYetOut(Next(p, dir, w, a), id)
  {
    hide Inv, Enabled, Next, Followed, NotYetOut, OpFollowed, NamedIn;
    var w' := Next(p, dir, w, a);
    FollowedParts(w, id);
    NotYetOutParts(w, id);
    SharedAfter(p, dir, w, a, id);
    LiveAfter(p, dir, w, a);
    KnownSharing(p, dir, w, a, id);
    var gid := w.ops[id].group;
    if a.id in w.ops {
      FollowedParts(w, a.id);
    }
    forall n, name
      ensures !NamedIn(w', gid, n, name)
    {
      if NamedIn(w', gid, n, name) {
        NamedAfter(p, dir, w, a, gid, n, name);
      }
    }
    forall j | j in w'.ops
      ensures j != id && w'.ops[j].Sharing? ==> w'.ops[j].group != gid
      ensures w'.ops[j].WritingBack? ==> w'.ops[j].source.groupId != gid
    {
      SharedAfter(p, dir, w, a, j);
    }
    StillNotOut(w', id);
  }

  lemma NotYetOutKept(p: Primitives, dir: Directory, w: World, a: Action, id: nat)
    requires Inv(dir, w) && Enabled(p, dir, w, a) && Followed(w)
    ensures NotYetOut(Next(p, dir, w, a), id)
  {
    hide Inv, Enabled, Next, Followed, OpFollowed;
    var w' := Next(p, dir, w, a);
    if id in w'.ops && w'.ops[id].Sharing? {
      hide NotYetOut;
      SharedAfter(p, dir, w, a, id);
      if id in w.ops && w.ops[id].Sharing? {
        KnownSharing(p, dir, w, a, id);
        StaysNotOut(p, dir, w, a, id);
      } else {
        BegunNotOut(p, dir, w, a);
      }
    }
  }

  lemma NotOutBefore(w: World, id: nat)
    requires Followed(w)
    ensures NotYetOut(w, id)
    ensures id in w.ops ==> OpFollowed(w, w.ops[id])
  {
    hide OpFollowed;
  }

  lemma NotSharedBack(w: World, id: nat)
    requires Followed(w) && id in w.ops
    ensures w.ops[id].WritingBack? ==> !BeingShared(w, w.ops[id].source.groupId)
  {
    hide OpFollowed;
    forall j | j in w.ops && w.ops[j].Sharing?
      ensures w.ops[id].WritingBack? ==> w.ops[j].group != w.ops[id].source.groupId
    {
      assert NotYetOut(w, j);
    }
  }

  /** A step that moves nothing back leaves every pending operation knowing what it did. */
  lemma NextFollowed(p: Primitives, dir: Directory, w: World, a: Action)
    requires Inv(dir, w) && Enabled(p, dir, w, a) && Followed(w) && !MovesBack(w, a) && NewRotation(w, a)
    ensures Followed(Next(p, dir, w, a))
  {
    hide Inv, Enabled, Next, OpFollowed, NotYetOut, MovesBack, NewRotation, ListsForward, Extends, AllSlotted,
      BeingShared;
    var w' := Next(p, dir, w, a);
    NotOutBefore(w, a.id);
    StepForward(p, dir, w, a);
    NextExtends(p, dir, w, a);
    InvSlotted(dir, w);
    forall id | id in w'.ops
      ensures OpFollowed(w', w'.ops[id]) && NotYetOut(w', id)
    {
      NotYetOutKept(p, dir, w, a, id);
      if id == a.id {
        MovedFollowed(p, dir, w, a);
      } else {
        OtherOpsStay(p, dir, w, a, id);
        NotSharedBack(w, id);
        OpFollowedStays(w, w', w.ops[id]);
      }
    }
  }

  // --- Whole runs ---

  /** Rotated PIDs are new throughout the run. */
  ghost predicate NewRotations(states: seq<World>, actions: seq<Action>)
    requires |states| == |actions| + 1
  {
    forall i :: 0 <= i < |actions| ==> NewRotation(states[i], actions[i])
  }

  ghost predicate NeverBackBefore(states: seq<World>, actions: seq<Action>, i: nat)
    requires i <= |actions| && |states| == |actions| + 1
  {
    forall j :: 0 <= j < i ==> !MovesBack(states[j], actions[j])
  }

  lemma NothingFollowed(dir: Directory)
    ensures Followed(Init(dir))
  {
  }

  lemma {:induction false} RunFollowed(p: Primitives, dir: Directory, states: seq<World>, actions: seq<Action>, i: nat)
    requires IsRun(p, dir, states, actions) && NewRotations(states, actions)
    requires i <= |actions| && NeverBackBefore(states, actions, i)
    ensures Followed(states[i])
  {
    hide Inv, Enabled, Next, Followed, MovesBack, NewRotation, Init;
    if i == 0 {
      NothingFollowed(dir);
    } else {
      RunFollowed(p, dir, states, actions, i - 1);
      RunInv(p, dir, states, actions, i - 1);
      assert StepAt(p, dir, states, actions, i - 1);
      NextFollowed(p, dir, states[i - 1], actions[i - 1]);
    }
  }

  lemma NothingReplaced(w: World, a: Action)
    requires a.id !in w.ops
    ensures !MovesBack(w, a) && AsRead(w, a)
  {
    hide Depth;
  }

  lemma MutationsOwnSteps(p: Primitives, dir: Directory, w: World, a: Action)
    requires Enabled(p, dir, w, a) && a.id in w.ops && w.ops[a.id].Mutating?
    ensures (a.PutNewRow? ==> !w.ops[a.id].stored) && (a.DeleteOldRow? ==> w.ops[a.id].stored)
  {
  }

  /** In every run of the whole system - mutations, notice handlers and reshares overlapping in any
      way, notices lost, repeated and reordered - the first step to move an entry back is the first
      write, put or delete that does not find what its operation had read. */
  lemma StepMovesBackIff(p: Primitives, dir: Directory, states: seq<World>, actions: seq<Action>, i: nat)
    requires IsRun(p, dir, states, actions) && NewRotations(states, actions)
    requires i < |actions| && NeverBackBefore(states, actions, i)
    ensures MovesBack(states[i], actions[i]) <==> !AsRead(states[i], actions[i])
  {
    hide Inv, Enabled, Next, Followed, OpFollowed, MovesBack, NewRotation, Init, AsRead;
    RunFollowed(p, dir, states, actions, i);
    assert StepAt(p, dir, states, actions, i);
    if actions[i].id in states[i].ops {
      NotOutBefore(states[i], actions[i].id);
      if states[i].ops[actions[i].id].Mutating? {
        MutationsOwnSteps(p, dir, states[i], actions[i]);
      }
      BackIffDisturbed(states[i], actions[i]);
    } else {
      NothingReplaced(states[i], actions[i]);
    }
  }

  lemma {:induction false} AsReadUpTo(p: Primitives, dir: Directory, states: seq<World>, actions: seq<Action>, i: nat)
    requires IsRun(p, dir, states, actions) && NewRotations(states, actions) && i <= |actions|
    requires forall j :: 0 <= j < |actions| ==> AsRead(states[j], actions[j])
    ensures NeverBackBefore(states, actions, i)
  {
    hide IsRun, MovesBack, NewRotations, AsRead;
    if i > 0 {
      AsReadUpTo(p, dir, states, actions, i - 1);
      StepMovesBackIff(p, dir, states, actions, i - 1);
    }
  }

  /** So a run never moves an entry back if and only if every write, put and delete in it finds what
      was read. */
  lemma NeverBackIff(p: Primitives, dir: Directory, states: seq<World>, actions: seq<Action>)
    requires IsRun(p, dir, states, actions) && NewRotations(states, actions)
    ensures NeverBackBefore(states, actions, |actions|) <==>
      forall i :: 0 <= i < |actions| ==> AsRead(states[i], actions[i])
  {
    hide Enabled, Next, Init, MovesBack, NewRotations, AsRead;
    if NeverBackBefore(states, actions, |actions|) {
      forall i | 0 <= i < |actions|
        ensures AsRead(states[i], actions[i])
      {
        StepMovesBackIff(p, dir, states, actions, i);
      }
    }
    if forall i :: 0 <= i < |actions| ==> AsRead(states[i], actions[i]) {
      AsReadUpTo(p, dir, states, actions, |actions|);
    }
  }

  lemma ForwardStep(p: Primitives, dir: Directory, states: seq<World>, actions: seq<Action>, i: nat)
    requires IsRun(p, dir, states, actions) && NewRotations(states, actions)
    requires i < |actions| && NeverBackBefore(states, actions, i + 1)
    ensures Extends(states[i], states[i + 1]) && AllSlotted(states[i]) && ListsForward(states[i], states[i + 1])
    ensures Followed(states[i])
  {
    hide Inv, Enabled, Next, Followed, MovesBack, NewRotation, Init, Extends, AllSlotted, ListsForward;
    RunFollowed(p, dir, states, actions, i);
    RunInv(p, dir, states, actions, i);
    assert StepAt(p, dir, states, actions, i);
    NotOutBefore(states[i], actions[i].id);
    StepForward(p, dir, states[i], actions[i]);
    NextExtends(p, dir, states[i], actions[i]);
    InvSlotted(dir, states[i]);
  }

  /** What it means for nothing to move back, whatever the operations were: in such a run all that
      a node's row ever said is, at any later time, still said by that row - or, once it has been
      deleted, by a later row of the same share at the same node. */
  lemma {:induction false} NothingLost(p: Primitives, dir: Directory, states: seq<World>, actions: seq<Action>,
                                       i: nat, j: nat, n: NodeId, q: Pid)
    requires IsRun(p, dir, states, actions) && NewRotations(states, actions)
    requires i <= j <= |actions| && NeverBackBefore(states, actions, j) && HasRow(states[i], n, q)
    ensures HasRow(states[j], n, q) ==> NoneBehind(states[j], ListOf(states[i], n, q), ListOf(states[j], n, q))
    ensures HasRow(states[j], n, q) || LaterHas(states[j], n, q, ListOf(states[i], n, q))
    ensures RowKept(states[j], n, q, ListOf(states[i], n, q))
    decreases j
  {
    hide Enabled, Next, Init, Inv, Followed, MovesBack, NewRotations, Extends, ListsForward, NoneBehind, LaterHas,
      Slotted, Delivered;
    if i == j {
      RunInv(p, dir, states, actions, i);
      InvSlotted(dir, states[i]);
      NoneBehindItself(states[i], ListOf(states[i], n, q));
    } else {
      NothingLost(p, dir, states, actions, i, j - 1, n, q);
      ForwardStep(p, dir, states, actions, j - 1);
      RowKeptStays(states[j - 1], states[j], n, q, ListOf(states[i], n, q));
    }
  }

  /** A known group that is not being shared out never will be. */
  ghost predicate SharedOut(w: World, gid: GroupId) {
    gid in w.groups && !BeingShared(w, gid)
  }

  lemma SharedOutStays(p: Primitives, dir: Directory, w: World, a: Action, gid: GroupId)
    requires Enabled(p, dir, w, a) && SharedOut(w, gid)
    ensures SharedOut(Next(p, dir, w, a), gid)
  {
    hide Enabled, Next;
    NextExtends(p, dir, w, a);
    forall id | id in Next(p, dir, w, a).ops && Next(p, dir, w, a).ops[id].Sharing?
      ensures Next(p, dir, w, a).ops[id].group != gid
    {
      SharedAfter(p, dir, w, a, id);
      if a.BeginSharing? || a.BeginResharing? {
        BeginsUnknown(p, dir, w, a);
      }
    }
  }

  lemma NotBeingShared(w: World, gid: GroupId)
    requires SharedOut(w, gid)
    ensures !BeingShared(w, gid)
  {
  }

  lemma StoredIsSharedOut(dir: Directory, w: World, n: NodeId, name: Name)
    requires Inv(dir, w) && Followed(w) && n in w.stores && name in w.stores[n].manifests
    ensures SharedOut(w, w.stores[n].manifests[name].groupId)
    ensures w.stores[n].manifests[name].secretName == name && ManifestFollowed(w, n, w.stores[n].manifests[name])
  {
    hide Inv, OpFollowed, ManifestOk, NoneBehind;
    TheManifest(dir, w, n, name);
    ManifestGroup(dir, w, w.stores[n].manifests[name]);
    InvSlotted(dir, w);
    NoneBehindItself(w, w.stores[n].manifests[name].members);
    forall id | id in w.ops && w.ops[id].Sharing?
      ensures w.ops[id].group != w.stores[n].manifests[name].groupId
    {
      assert NotYetOut(w, id);
    }
  }

  /** And a manifest is never behind itself while it names the same group, nor does it come back to
      a group that it no longer named. */
  lemma {:induction false} NoManifestLost(p: Primitives, dir: Directory, states: seq<World>, actions: seq<Action>,
                                          i: nat, j: nat, n: NodeId, name: Name)
    requires IsRun(p, dir, states, actions) && NewRotations(states, actions)
    requires i <= j <= |actions| && NeverBackBefore(states, actions, j)
    requires n in states[i].stores && name in states[i].stores[n].manifests
    ensures var m := states[i].stores[n].manifests[name];
      && ManifestFollowed(states[j], n, m) && m.secretName == name && SharedOut(states[j], m.groupId)
      && (NamedIn(states[j], m.groupId, n, name) ==>
            && NoneBehind(states[j], m.members, states[j].stores[n].manifests[name].members)
            && forall k :: i <= k <= j ==> NamedIn(states[k], m.groupId, n, name))
    decreases j
  {
    hide Enabled, Next, Init, Inv, Followed, MovesBack, NewRotations, Extends, NoneBehind, Slotted, SharedOut,
      BeingShared, AllSlotted, RowForward, RowCovered;
    var m := states[i].stores[n].manifests[name];
    if i == j {
      RunInv(p, dir, states, actions, i);
      RunFollowed(p, dir, states, actions, i);
      StoredIsSharedOut(dir, states[i], n, name);
    } else {
      NoManifestLost(p, dir, states, actions, i, j - 1, n, name);
      ForwardStep(p, dir, states, actions, j - 1);
      assert StepAt(p, dir, states, actions, j - 1);
      SharedOutStays(p, dir, states[j - 1], actions[j - 1], m.groupId);
      assert ManifestForward(states[j - 1], states[j], n, name);
      NotBeingShared(states[j - 1], m.groupId);
      ManifestFollowedStays(states[j - 1], states[j], n, m);
    }
  }

  /** No PID was rotated twice: a share's PIDs are told apart by their positions. */
  ghost predicate Unforked(w: World) {
    forall q, r :: q in w.slots && r in w.slots && w.slots[q] == w.slots[r] && Depth(w, q) == Depth(w, r) ==> q == r
  }

  ghost predicate EntriesKeptUp(w: World, now: seq<Member>, read: seq<Member>, later: seq<Member>) {
    && |now| == |read| == |later|
    && forall k :: 0 <= k < |now| ==> now[k] == read[k] || Depth(w, now[k].pid) <= Depth(w, later[k].pid)
  }

  /** Then the condition is about the very entries: each one stored now is the one that was read,
      or already the one that is being written; each one of a row to be deleted is the one that was
      read, or a later row has followed it; and a later row beside a new one has the very list that
      was read. */
  ghost predicate EntriesAsRead(w: World, a: Action) {
    && (Replaces(w, a).Some? ==>
          && !GroupSuperseded(w, a)
          && var now, written, read := Replaces(w, a).value.0, Replaces(w, a).value.1, WasRead(w, a);
          && |now| == |read| == |written|
          && forall k :: 0 <= k < |now| ==> now[k] == read[k] || now[k] == written[k])
    && (Deletes(w, a) ==>
          var op := w.ops[a.id];
          exists r :: Later(w, op.node, op.row.pid, r) && NoneBehind(w, op.row.members, ListOf(w, op.node, r))
                      && EntriesKeptUp(w, ListOf(w, op.node, op.row.pid), op.row.members, ListOf(w, op.node, r)))
    && (Puts(w, a) ==>
          var op := w.ops[a.id];
          forall r :: Later(w, op.node, op.row.pid, r) && NoneBehind(w, op.row.members, ListOf(w, op.node, r)) ==>
            ListOf(w, op.node, r) == op.row.members)
  }

  /** The three lists of a write are lists of one group. */
  lemma OneGroup(p: Primitives, dir: Directory, w: World, a: Action) returns (gid: GroupId)
    requires Inv(dir, w) && Enabled(p, dir, w, a) && Replaces(w, a).Some? && !GroupSuperseded(w, a)
    ensures MembersOk(dir, w, gid, Replaces(w, a).value.0) && MembersOk(dir, w, gid, Replaces(w, a).value.1)
    ensures MembersOk(dir, w, gid, WasRead(w, a))
  {
    hide Inv, MembersOk, ShareOf, RotationUsable;
    var op := w.ops[a.id];
    TheOp(dir, w, a.id);
    if a.WriteRow? {
      gid := op.group;
      TheRow(dir, w, op.node, a.pid);
      RowParts(dir, w, op.node, w.stores[op.node].fragments[a.pid]);
    } else if a.PutNewRow? {
      gid := op.row.groupId;
      TheRow(dir, w, op.node, op.row.pid);
      RowParts(dir, w, op.node, w.stores[op.node].fragments[op.row.pid]);
      RowParts(dir, w, op.node, op.row);
    } else {
      gid := op.manifest.groupId;
      TheManifest(dir, w, op.node, op.manifest.secretName);
    }
  }

  /** So are a mutation's row and every row of its share. */
  lemma OneShare(dir: Directory, w: World, id: nat, r: Pid)
    requires Inv(dir, w) && id in w.ops && w.ops[id].Mutating? && HasRow(w, w.ops[id].node, r)
    requires r in w.slots && w.ops[id].row.pid in w.slots && w.slots[r] == w.slots[w.ops[id].row.pid]
    ensures MembersOk(dir, w, w.ops[id].row.groupId, w.ops[id].row.members)
    ensures MembersOk(dir, w, w.ops[id].row.groupId, ListOf(w, w.ops[id].node, r))
  {
    hide Inv, MembersOk, ShareOf;
    var op := w.ops[id];
    TheOp(dir, w, id);
    TheRow(dir, w, op.node, r);
    RowParts(dir, w, op.node, w.stores[op.node].fragments[r]);
    RowParts(dir, w, op.node, op.row);
  }

  lemma SamePlaceIsSameEntry(dir: Directory, w: World, gid: GroupId, ms: seq<Member>, ms': seq<Member>, k: nat)
    requires Unforked(w) && MembersOk(dir, w, gid, ms) && MembersOk(dir, w, gid, ms') && k < |ms|
    ensures k < |ms'| && (SamePlace(w, ms[k], ms'[k]) <==> ms[k] == ms'[k])
  {
    hide Depth;
  }

  lemma SameLengths(dir: Directory, w: World, gid: GroupId, ms: seq<Member>, ms': seq<Member>)
    requires MembersOk(dir, w, gid, ms) && MembersOk(dir, w, gid, ms')
    ensures |ms| == |ms'|
  {
  }

  lemma SamePlacesAreSameLists(dir: Directory, w: World, gid: GroupId, ms: seq<Member>, ms': seq<Member>)
    requires Unforked(w) && MembersOk(dir, w, gid, ms) && MembersOk(dir, w, gid, ms')
    ensures SamePlaces(w, ms, ms') <==> ms == ms'
    ensures forall later :: KeptUp(w, ms, ms', later) <==> EntriesKeptUp(w, ms, ms', later)
  {
    hide Unforked, MembersOk, SamePlace;
    SameLengths(dir, w, gid, ms, ms');
    forall k | 0 <= k < |ms|
      ensures SamePlace(w, ms[k], ms'[k]) <==> ms[k] == ms'[k]
    {
      SamePlaceIsSameEntry(dir, w, gid, ms, ms', k);
    }
  }

  lemma OverwrittenEntries(p: Primitives, dir: Directory, w: World, a: Action)
    requires Inv(dir, w) && Enabled(p, dir, w, a) && Unforked(w) && Replaces(w, a).Some? && !GroupSuperseded(w, a)
    ensures var now, written, read := Replaces(w, a).value.0, Replaces(w, a).value.1, WasRead(w, a);
      && |now| == |read| == |written|
      && forall k :: 0 <= k < |now| ==>
           && (SamePlace(w, now[k], read[k]) <==> now[k] == read[k])
           && (SamePlace(w, now[k], written[k]) <==> now[k] == written[k])
  {
    hide Inv, Enabled, Unforked, SamePlace, MembersOk, WasRead, Replaces, GroupSuperseded;
    var gid := OneGroup(p, dir, w, a);
    var now, written, read := Replaces(w, a).value.0, Replaces(w, a).value.1, WasRead(w, a);
    SameLengths(dir, w, gid, now, read);
    SameLengths(dir, w, gid, now, written);
    forall k | 0 <= k < |now|
      ensures SamePlace(w, now[k], read[k]) <==> now[k] == read[k]
      ensures SamePlace(w, now[k], written[k]) <==> now[k] == written[k]
    {
      SamePlaceIsSameEntry(dir, w, gid, now, read, k);
      SamePlaceIsSameEntry(dir, w, gid, now, written, k);
    }
  }

  lemma MutationsEntries(dir: Directory, w: World, a: Action)
    requires Inv(dir, w) && Unforked(w) && a.id in w.ops && w.ops[a.id].Mutating?
    ensures var op := w.ops[a.id];
      && (Deletes(w, a) ==>
            forall later :: KeptUp(w, ListOf(w, op.node, op.row.pid), op.row.members, later)
              <==> EntriesKeptUp(w, ListOf(w, op.node, op.row.pid), op.row.members, later))
      && (forall r :: Later(w, op.node, op.row.pid, r) ==>
            (SamePlaces(w, ListOf(w, op.node, r), op.row.members) <==> ListOf(w, op.node, r) == op.row.members))
  {
    hide Inv, Unforked, MembersOk, KeptUp, EntriesKeptUp, SamePlaces, Depth;
    var op := w.ops[a.id];
    if Deletes(w, a) {
      InvSlotted(dir, w);
      OneShare(dir, w, a.id, op.row.pid);
      SamePlacesAreSameLists(dir, w, op.row.groupId, ListOf(w, op.node, op.row.pid), op.row.members);
    }
    forall r | Later(w, op.node, op.row.pid, r)
      ensures SamePlaces(w, ListOf(w, op.node, r), op.row.members) <==> ListOf(w, op.node, r) == op.row.members
    {
      OneShare(dir, w, a.id, r);
      SamePlacesAreSameLists(dir, w, op.row.groupId, ListOf(w, op.node, r), op.row.members);
    }
  }

  lemma AsReadIsEntriesAsRead(p: Primitives, dir: Directory, w: World, a: Action)
    requires Inv(dir, w) && Enabled(p, dir, w, a) && Unforked(w)
    ensures AsRead(w, a) <==> EntriesAsRead(w, a)
  {
    hide Inv, Enabled, Unforked, SamePlace, SamePlaces, KeptUp, EntriesKeptUp, Later, NoneBehind, Replaces, WasRead,
      GroupSuperseded;
    if Replaces(w, a).Some? && !GroupSuperseded(w, a) {
      OverwrittenEntries(p, dir, w, a);
    }
    if a.id in w.ops && w.ops[a.id].Mutating? {
      MutationsEntries(dir, w, a);
    }
  }

  lemma StepMovesBackIffEntries(p: Primitives, dir: Directory, states: seq<World>, actions: seq<Action>, i: nat)
    requires IsRun(p, dir, states, actions) && NewRotations(states, actions)
    requires i < |actions| && NeverBackBefore(states, actions, i)
    requires Unforked(states[i])
    ensures MovesBack(states[i], actions[i]) <==> !EntriesAsRead(states[i], actions[i])
  {
    hide Inv, Enabled, Next, MovesBack, NewRotation, Init, Unforked, AsRead, EntriesAsRead;
    StepMovesBackIff(p, dir, states, actions, i);
    RunInv(p, dir, states, actions, i);
    assert StepAt(p, dir, states, actions, i);
    AsReadIsEntriesAsRead(p, dir, states[i], actions[i]);
  }
}
