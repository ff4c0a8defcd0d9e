// The resumable application of a 115 normalisation plan. The script never asks where an object is:
// it infers the parent from the object's name and the operation's recorded status. A crash is a
// failure that nothing handles, so every claim below holds wherever a run stops.
module NormalizeApply {
  import opened Common

  datatype Object = Object(parent: Id, name: string, size: nat, sha1: string)

  datatype Status = Pending | Moved | Renamed | Completed | Failed

  // A row of the plan's operations; `expectedSha1` is empty when the inventory had none.
  datatype Operation = Operation(
    phase: nat,
    objectId: Id,
    expectedParent: Id,
    expectedName: string,
    expectedSize: nat,
    expectedSha1: string,
    directory: string,
    targetName: string,
    status: Status)

  // What get_object shows: everything but the parent.
  datatype Seen = Seen(name: string, size: nat, sha1: string)

  function SeenOf(o: Object): Seen {
    Seen(o.name, o.size, o.sha1)
  }

  const BATCH := 50

  predicate Unfinished(op: Operation) {
    op.status.Pending? || op.status.Moved? || op.status.Renamed?
  }

  // locate_object: the inferred parent.
  function InferredParent(op: Operation, name: string, target: Id): Option<Id> {
    if name == op.targetName then Some(target)
    else if name == op.expectedName then
      Some(if op.status.Moved? || op.status.Renamed? then target else op.expectedParent)
    else None
  }

  predicate SameBytes(op: Operation, size: nat, sha1: string) {
    size == op.expectedSize && (op.expectedSha1 == "" || sha1 == op.expectedSha1)
  }

  // The invariant of one operation: where its object really is.
  predicate Placed(op: Operation, o: Object, target: Id) {
    if op.targetName == op.expectedName then o.parent == op.expectedParent && o.name == op.expectedName
    else
      && (o.name == op.expectedName || o.name == op.targetName)
      && (o.parent == op.expectedParent || o.parent == target)
      && (o.name == op.targetName ==> o.parent == target)
      && (op.status.Moved? || op.status.Renamed? ==> o.parent == target)
      && (op.status.Completed? ==> o.name == op.targetName)
  }

  // Every object is still there, with its bytes.
  predicate Conserved(before: map<Id, Object>, after: map<Id, Object>) {
    before.Keys == after.Keys && forall id | id in before :: SameFile(before[id], after[id])
  }

  predicate SameFile(a: Object, b: Object) {
    a.size == b.size && a.sha1 == b.sha1
  }

  // The plan a planner leaves: nothing started, every object where the inventory saw it.
  predicate FreshPlan(ops: seq<Operation>, objects: map<Id, Object>, cids: map<string, Id>) {
    UniqueObjects(ops) && forall i | 0 <= i < |ops| :: AsSeen(ops[i], objects, cids)
  }

  // Not started, its object where the inventory saw it.
  predicate AsSeen(op: Operation, objects: map<Id, Object>, cids: map<string, Id>) {
    && op.objectId in objects && op.directory in cids && op.status.Pending?
    && objects[op.objectId].parent == op.expectedParent && objects[op.objectId].name == op.expectedName
  }

  predicate UniqueObjects(ops: seq<Operation>) {
    forall i, j | 0 <= i < j < |ops| :: ops[i].objectId != ops[j].objectId
  }

  predicate Invariant(ops: seq<Operation>, objects: map<Id, Object>, cids: map<string, Id>) {
    && UniqueObjects(ops)
    && forall i | 0 <= i < |ops| ::
         && ops[i].objectId in objects && ops[i].directory in cids
         && Placed(ops[i], objects[ops[i].objectId], cids[ops[i].directory])
  }

  predicate NothingOpen(ops: seq<Operation>) {
    forall i | 0 <= i < |ops| :: !ops[i].status.Pending? && !ops[i].status.Failed?
  }

  lemma FreshPlanIsPlaced(ops: seq<Operation>, objects: map<Id, Object>, cids: map<string, Id>)
    requires FreshPlan(ops, objects, cids)
    ensures Invariant(ops, objects, cids)
  {
    assert forall i | 0 <= i < |ops| :: AsSeen(ops[i], objects, cids);
  }

  // Operations added to a plan that has been worked on.
  lemma AddedIsPlaced(ops: seq<Operation>, more: seq<Operation>, objects: map<Id, Object>, cids: map<string, Id>)
    requires Invariant(ops, objects, cids) && UniqueObjects(ops + more) && forall i | 0 <= i < |more| :: AsSeen(more[i], objects, cids)
    ensures Invariant(ops + more, objects, cids)
  {
    var all := ops + more;
    forall i | 0 <= i < |all|
      ensures all[i].objectId in objects && all[i].directory in cids && Placed(all[i], objects[all[i].objectId], cids[all[i].directory])
    {
      assert i >= |ops| ==> all[i] == more[i - |ops|] && AsSeen(more[i - |ops|], objects, cids);
    }
  }

  // Only statuses differ.
  predicate SamePlan(a: seq<Operation>, b: seq<Operation>) {
    |a| == |b| && forall i | 0 <= i < |a| :: a[i] == b[i].(status := a[i].status)
  }

  // Objects no operation names are as they were.
  predicate OthersUntouched(ops: seq<Operation>, before: map<Id, Object>, after: map<Id, Object>) {
    forall id {:trigger id in after} | id in before && id in after && (forall i | 0 <= i < |ops| :: ops[i].objectId != id) ::
      after[id] == before[id]
  }

  // The plan and the account between runs.
  datatype View = View(ops: seq<Operation>, objects: map<Id, Object>)

  predicate ChangedOnly(before: map<Id, Object>, after: map<Id, Object>, ids: seq<Id>) {
    forall id | id in before && id !in ids :: id in after && after[id] == before[id]
  }

  // What every run keeps.
  predicate Kept(v: View, w: View, cids: map<string, Id>) {
    && Invariant(w.ops, w.objects, cids)
    && SamePlan(v.ops, w.ops)
    && Conserved(v.objects, w.objects)
    && OthersUntouched(v.ops, v.objects, w.objects)
  }

  lemma KeptTransitive(u: View, v: View, w: View, cids: map<string, Id>)
    requires Kept(u, v, cids) && Kept(v, w, cids)
    ensures Kept(u, w, cids)
  {
    assert Conserved(u.objects, w.objects);
    forall id | id in u.objects && id in w.objects && (forall i | 0 <= i < |u.ops| :: u.ops[i].objectId != id)
      ensures w.objects[id] == u.objects[id]
    {
      assert id in v.objects && forall i | 0 <= i < |v.ops| :: v.ops[i].objectId != id;
    }
  }

  predicate InGroup(ops: seq<Operation>, i: nat, phase: nat, directory: string)
  {
    i < |ops| && ops[i].phase == phase && ops[i].directory == directory
  }

  predicate Rising(ops: seq<Operation>, rows: seq<nat>) {
    && (forall k | 0 <= k < |rows| :: rows[k] < |ops|)
    && forall k, l | 0 <= k < l < |rows| :: rows[k] < rows[l]
  }

  // No unfinished operation's bytes changed, and none shares its target with another of its group.
  predicate NothingToRefuse(ops: seq<Operation>, objects: map<Id, Object>) {
    && (forall i | 0 <= i < |ops| && Unfinished(ops[i]) ::
          ops[i].objectId in objects && SameBytes(ops[i], objects[ops[i].objectId].size, objects[ops[i].objectId].sha1))
    && forall i, j | 0 <= i < j < |ops| && Unfinished(ops[i]) && Unfinished(ops[j])
         && ops[i].phase == ops[j].phase && ops[i].directory == ops[j].directory :: ops[i].targetName != ops[j].targetName
  }

  // Groups are formed and used as index sequences.
  predicate Group(ops: seq<Operation>, group: seq<nat>, directory: string) {
    && (forall k | 0 <= k < |group| :: group[k] < |ops| && ops[group[k]].directory == directory && Unfinished(ops[group[k]]))
    && forall k, l | 0 <= k < l < |group| :: group[k] < group[l]
  }

  // The group's objects whose names are to change are in the target folder.
  predicate Arrived(ops: seq<Operation>, objects: map<Id, Object>, group: seq<nat>, target: Id)
    requires forall k | 0 <= k < |group| :: group[k] < |ops| && ops[group[k]].objectId in objects
  {
    forall k | 0 <= k < |group| ::
      ops[group[k]].targetName != ops[group[k]].expectedName ==> objects[ops[group[k]].objectId].parent == target
  }

  predicate ParentsKept(before: map<Id, Object>, after: map<Id, Object>) {
    forall id | id in before :: id in after && after[id].parent == before[id].parent
  }

  predicate NamesKept(before: map<Id, Object>, after: map<Id, Object>) {
    forall id | id in before :: id in after && after[id].name == before[id].name
  }

  // The operations of the group whose inferred parent is not the target.
  predicate NeedMoving(ops: seq<Operation>, objects: map<Id, Object>, group: seq<nat>, toMove: seq<nat>, target: Id)
    requires forall k | 0 <= k < |group| :: group[k] < |ops| && ops[group[k]].objectId in objects
  {
    && (forall i | i in toMove :: i in group)
    && forall i | i in group ::
         i in toMove <==> InferredParent(ops[i], objects[ops[i].objectId].name, target) != Some(target)
  }

  predicate AsPlanned(op: Operation, o: Object) {
    o.name == op.targetName && SameBytes(op, o.size, o.sha1)
  }

  // Nothing in the group for a run to refuse.
  predicate Agreeable(ops: seq<Operation>, objects: map<Id, Object>, group: seq<nat>)
    requires forall k | 0 <= k < |group| :: group[k] < |ops| && ops[group[k]].objectId in objects
  {
    && (forall k | 0 <= k < |group| ::
          SameBytes(ops[group[k]], objects[ops[group[k]].objectId].size, objects[ops[group[k]].objectId].sha1))
    && forall k, l | 0 <= k < l < |group| :: ops[group[k]].targetName != ops[group[l]].targetName
  }

  function ObjectIds(ops: seq<Operation>, group: seq<nat>): (ids: seq<Id>)
    requires forall k | 0 <= k < |group| :: group[k] < |ops|
    ensures |ids| == |group| && forall k | 0 <= k < |group| :: ids[k] == ops[group[k]].objectId
  {
    seq(|group|, k requires 0 <= k < |group| => ops[group[k]].objectId)
  }

  // Part of a run: the rows still to come are as they were, the other unfinished ones are done.
  predicate Progress(u: View, w: View, rest: seq<nat>, cids: map<string, Id>) {
    && Kept(u, w, cids) && Rising(u.ops, rest)
    && (forall i | 0 <= i < |u.ops| && !Unfinished(u.ops[i]) :: w.ops[i] == u.ops[i])
    && (forall i | i in rest :: i < |u.ops| && Unfinished(u.ops[i]) && w.ops[i] == u.ops[i])
    && forall i | 0 <= i < |u.ops| && Unfinished(u.ops[i]) && i !in rest :: w.ops[i].status.Completed?
  }

  lemma GroupOf(u: View, v: View, rest: seq<nat>, group: seq<nat>, phase: nat, directory: string, cids: map<string, Id>)
    requires Progress(u, v, rest, cids) && Rising(u.ops, group)
    requires forall i | i in group :: i in rest && InGroup(v.ops, i, phase, directory)
    ensures Group(v.ops, group, directory)
    ensures NothingToRefuse(u.ops, u.objects) ==> Agreeable(v.ops, v.objects, group)
  {
    assert forall k | 0 <= k < |group| :: group[k] in group;
  }

  lemma OneGroup(u: View, v: View, w: View, rest: seq<nat>, group: seq<nat>, other: seq<nat>, cids: map<string, Id>)
    requires Progress(u, v, rest, cids) && Kept(u, w, cids) && |w.ops| == |v.ops| == |u.ops|
    requires Rising(u.ops, group) && Rising(u.ops, other)
    requires forall i: nat | i < |u.ops| :: i in rest <==> i in group || i in other
    requires forall i | i in group || i in other :: i in rest
    requires forall i | i in group :: i !in other
    requires forall i | 0 <= i < |w.ops| && i !in group :: w.ops[i] == v.ops[i]
    ensures forall i | 0 <= i < |u.ops| && !Unfinished(u.ops[i]) :: w.ops[i] == u.ops[i]
    ensures (forall k | 0 <= k < |group| :: w.ops[group[k]].status.Completed?) ==> Progress(u, w, other, cids)
  {
  }

  // Some of a batch's objects, all of them to be renamed as well, went to the target folder.
  lemma MovedStaysPlaced(ops: seq<Operation>, before: map<Id, Object>, after: map<Id, Object>, cids: map<string, Id>,
                         batch: seq<nat>, directory: string)
    requires Invariant(ops, before, cids) && directory in cids && after.Keys == before.Keys
    requires forall k | 0 <= k < |batch| ::
               batch[k] < |ops| && ops[batch[k]].directory == directory && ops[batch[k]].targetName != ops[batch[k]].expectedName
    requires forall id | id in before ::
               after[id] == before[id] || (id in ObjectIds(ops, batch) && after[id] == before[id].(parent := cids[directory]))
    ensures Invariant(ops, after, cids)
  {
    var ids := ObjectIds(ops, batch);
    forall i | 0 <= i < |ops|
      ensures Placed(ops[i], after[ops[i].objectId], cids[ops[i].directory])
    {
      if after[ops[i].objectId] != before[ops[i].objectId] {
        var k :| 0 <= k < |ids| && ids[k] == ops[i].objectId;
        assert batch[k] == i;
      }
    }
  }

  class Script {
    const cids: map<string, Id>
    var ops: seq<Operation>
    var objects: map<Id, Object>
    // While set, every request is carried out and says so.
    var reliable: bool

    constructor (ops: seq<Operation>, objects: map<Id, Object>, cids: map<string, Id>, reliable: bool)
      ensures this.ops == ops && this.objects == objects && this.cids == cids && this.reliable == reliable
    {
      this.ops, this.objects, this.cids, this.reliable := ops, objects, cids, reliable;
    }

    ghost function Now(): View
      reads this
    {
      View(ops, objects)
    }

    ghost predicate Valid()
      reads this
    {
      Invariant(ops, objects, cids)
    }

    /******* Requests *******/

    method GetObject(id: Id) returns (seen: Option<Seen>)
      requires id in objects
      ensures seen.Some? ==> seen.value == SeenOf(objects[id])
      ensures reliable ==> seen.Some?
    {
      var served: bool := *;
      if served || reliable {
        seen := Some(SeenOf(objects[id]));
      } else {
        seen := None;
      }
    }

    // A batch move may have moved any of its objects when it fails.
    method Move(ids: seq<Id>, target: Id) returns (ok: bool)
      requires forall id | id in ids :: id in objects
      modifies this`objects
      ensures objects.Keys == old(objects).Keys
      ensures forall id | id in objects ::
                objects[id] == old(objects)[id] || (id in ids && objects[id] == old(objects)[id].(parent := target))
      ensures ok ==> forall id | id in ids :: objects[id].parent == target
      ensures reliable ==> ok
    {
      var before := objects;
      ok := true;
      var i := 0;
      while i < |ids|
        invariant 0 <= i <= |ids|
        invariant objects.Keys == before.Keys
        invariant forall id | id in objects ::
                    objects[id] == before[id] || (id in ids && objects[id] == before[id].(parent := target))
        invariant ok ==> forall k | 0 <= k < i :: objects[ids[k]].parent == target
        invariant reliable ==> ok
      {
        var carriedOut: bool := *;
        if carriedOut || reliable {
          objects := objects[ids[i] := objects[ids[i]].(parent := target)];
        } else {
          ok := false;
        }
        i := i + 1;
      }
      var replied: bool := *;
      ok := ok && (replied || reliable);
    }

    method Rename(id: Id, name: string) returns (ok: bool)
      requires id in objects
      modifies this`objects
      ensures objects == old(objects)[id := old(objects)[id].(name := name)] || (!ok && objects == old(objects))
      ensures reliable ==> ok
    {
      var carriedOut: bool, replied: bool := *, *;
      if carriedOut || reliable {
        objects := objects[id := objects[id].(name := name)];
      }
      ok := (carriedOut && replied) || reliable;
    }

    /******* One target folder *******/

    // One transaction over the plan. It may fail as a whole.
    method SetStatus(rows: seq<nat>, status: Status) returns (ok: bool)
      requires forall k | 0 <= k < |rows| :: rows[k] < |ops|
      modifies this`ops
      ensures !ok ==> ops == old(ops)
      ensures ok ==> |ops| == |old(ops)| && forall i | 0 <= i < |ops| ::
                       ops[i] == if i in rows then old(ops)[i].(status := status) else old(ops)[i]
      ensures reliable ==> ok
    {
      var committed: bool := *;
      ok := committed || reliable;
      if ok {
        ops := seq(|ops|, i requires 0 <= i < |ops| reads this => if i in rows then ops[i].(status := status) else ops[i]);
      }
    }

    method ReadGroup(group: seq<nat>) returns (seen: Option<seq<Seen>>)
      requires Valid() && forall k | 0 <= k < |group| :: group[k] < |ops|
      ensures seen.Some? ==> |seen.value| == |group| && forall k | 0 <= k < |group| ::
                               seen.value[k] == SeenOf(objects[ops[group[k]].objectId])
      ensures reliable ==> seen.Some?
    {
      var all: seq<Seen> := [];
      for k := 0 to |group|
        invariant |all| == k && forall l | 0 <= l < k :: all[l] == SeenOf(objects[ops[group[l]].objectId])
      {
        var one := GetObject(ops[group[k]].objectId);
        if one.None? {
          return None;
        }
        all := all + [one.value];
      }
      seen := Some(all);
    }

    // Refuses what the plan did not foresee; otherwise names the operations whose objects must move.
    method CheckGroup(group: seq<nat>, seen: seq<Seen>, directory: string) returns (ok: bool, toMove: seq<nat>)
      requires Valid() && directory in cids && Group(ops, group, directory)
      requires |seen| == |group| && forall k | 0 <= k < |group| :: seen[k] == SeenOf(objects[ops[group[k]].objectId])
      modifies this`ops
      ensures Valid() && SamePlan(old(ops), ops)
      ensures ok ==> ops == old(ops) && NeedMoving(ops, objects, group, toMove, cids[directory])
      ensures ok <==> forall k | 0 <= k < |group| :: SameBytes(ops[group[k]], seen[k].size, seen[k].sha1)
      ensures !ok ==> exists k | 0 <= k < |group| ::
                        && !SameBytes(old(ops)[group[k]], seen[k].size, seen[k].sha1)
                        && (ops == old(ops) || ops == old(ops)[group[k] := old(ops)[group[k]].(status := Failed)])
    {
      toMove := [];
      var target := cids[directory];
      for k := 0 to |group|
        invariant Valid() && ops == old(ops)
        invariant NeedMoving(ops, objects, group[..k], toMove, target)
        invariant forall l | 0 <= l < k :: SameBytes(ops[group[l]], seen[l].size, seen[l].sha1)
      {
        var op := ops[group[k]];
        var parent := InferredParent(op, seen[k].name, target);
        assert Placed(op, objects[op.objectId], target);
        // With the invariant, neither an unknown parent nor an unknown name can be seen.
        assert parent.Some? && (parent.value == op.expectedParent || parent.value == target);
        assert seen[k].name == op.expectedName || (parent.value == target && seen[k].name == op.targetName);
        if !SameBytes(op, seen[k].size, seen[k].sha1) {
          var committed := SetStatus([group[k]], Failed);
          assert committed ==> ops == old(ops)[group[k] := old(ops)[group[k]].(status := Failed)];
          return false, [];
        }
        assert group[..k + 1] == group[..k] + [group[k]];
        if parent.value != target {
          toMove := toMove + [group[k]];
        }
      }
      ok := true;
      assert group[..|group|] == group;
    }

    // One move request per batch of at most fifty objects, source folder by source folder.
    method MoveAll(group: seq<nat>, toMove: seq<nat>, directory: string) returns (ok: bool)
      requires Valid() && directory in cids && Group(ops, group, directory)
      requires NeedMoving(ops, objects, group, toMove, cids[directory])
      modifies this`objects
      ensures Valid() && Conserved(old(objects), objects) && ChangedOnly(old(objects), objects, ObjectIds(ops, group))
      ensures NamesKept(old(objects), objects)
      ensures ok ==> Arrived(ops, objects, group, cids[directory])
      ensures reliable ==> ok
    {
      var rest := toMove;
      var target := cids[directory];
      ok := true;
      assert forall k | 0 <= k < |rest| :: rest[k] in toMove && rest[k] in group;
      while rest != []
        invariant Valid() && Conserved(old(objects), objects) && ChangedOnly(old(objects), objects, ObjectIds(ops, group))
        invariant NamesKept(old(objects), objects)
        invariant forall k | 0 <= k < |rest| :: rest[k] in toMove && rest[k] < |ops|
        invariant forall i | i in toMove && i !in rest :: i < |ops| && objects[ops[i].objectId].parent == target
        decreases |rest|
      {
        var source := ops[rest[0]].expectedParent;
        var same, other := Split(rest, source);
        ok := MoveSource(group, toMove, same, directory);
        if !ok {
          return;
        }
        rest := other;
      }
    }

    method Split(rows: seq<nat>, source: Id) returns (same: seq<nat>, other: seq<nat>)
      requires rows != [] && forall k | 0 <= k < |rows| :: rows[k] < |ops|
      requires ops[rows[0]].expectedParent == source
      ensures forall i | i in rows :: if ops[i].expectedParent == source then i in same else i in other
      ensures forall i | i in same :: i in rows && ops[i].expectedParent == source
      ensures forall i | i in other :: i in rows && ops[i].expectedParent != source
      ensures |other| < |rows|
    {
      same, other := [], [];
      for k := 0 to |rows|
        invariant forall i | i in rows[..k] :: if ops[i].expectedParent == source then i in same else i in other
        invariant forall i | i in same :: i in rows && ops[i].expectedParent == source
        invariant forall i | i in other :: i in rows && ops[i].expectedParent != source
        invariant |other| <= k && (k > 0 ==> |other| < k)
      {
        assert rows[..k + 1] == rows[..k] + [rows[k]];
        if ops[rows[k]].expectedParent == source {
          same := same + [rows[k]];
        } else {
          other := other + [rows[k]];
        }
      }
      assert rows[..|rows|] == rows;
    }

    method MoveSource(group: seq<nat>, toMove: seq<nat>, same: seq<nat>, directory: string) returns (ok: bool)
      requires Valid() && directory in cids && Group(ops, group, directory)
      requires forall i | i in toMove :: i in group && ops[i].targetName != ops[i].expectedName
      requires forall i | i in same :: i in toMove
      modifies this`objects
      ensures Valid() && Conserved(old(objects), objects) && ChangedOnly(old(objects), objects, ObjectIds(ops, group))
      ensures NamesKept(old(objects), objects)
      ensures forall i | i in toMove :: i < |ops| &&
                (old(objects[ops[i].objectId].parent) == cids[directory] ==> objects[ops[i].objectId].parent == cids[directory])
      ensures ok ==> forall i | i in same :: i < |ops| && objects[ops[i].objectId].parent == cids[directory]
      ensures reliable ==> ok
    {
      var start := 0;
      ok := true;
      while start < |same|
        invariant 0 <= start <= |same| && ok
        invariant Valid() && Conserved(old(objects), objects) && ChangedOnly(old(objects), objects, ObjectIds(ops, group))
        invariant NamesKept(old(objects), objects)
        invariant forall i | i in toMove :: i < |ops| &&
                    (old(objects[ops[i].objectId].parent) == cids[directory] ==> objects[ops[i].objectId].parent == cids[directory])
        invariant forall i | i in same[..start] :: i < |ops| && objects[ops[i].objectId].parent == cids[directory]
      {
        var end := if start + BATCH < |same| then start + BATCH else |same|;
        ok := MoveBatch(group, toMove, same[start..end], directory);
        if !ok {
          return;
        }
        assert same[..end] == same[..start] + same[start..end];
        start := end;
      }
      assert same[..|same|] == same;
    }

    method MoveBatch(group: seq<nat>, toMove: seq<nat>, batch: seq<nat>, directory: string) returns (ok: bool)
      requires Valid() && directory in cids && Group(ops, group, directory)
      requires forall i | i in toMove :: i in group && ops[i].targetName != ops[i].expectedName
      requires |batch| <= BATCH && forall i | i in batch :: i in toMove
      modifies this`objects
      ensures Valid() && Conserved(old(objects), objects) && ChangedOnly(old(objects), objects, ObjectIds(ops, group))
      ensures NamesKept(old(objects), objects)
      ensures forall i | i in toMove :: i < |ops| &&
                (old(objects[ops[i].objectId].parent) == cids[directory] ==> objects[ops[i].objectId].parent == cids[directory])
      ensures ok ==> forall i | i in batch :: i < |ops| && objects[ops[i].objectId].parent == cids[directory]
      ensures reliable ==> ok
    {
      var ids := ObjectIds(ops, batch);
      ok := Move(ids, cids[directory]);
      forall i | i in batch
        ensures ops[i].objectId in ids
      {
        var k :| 0 <= k < |batch| && batch[k] == i;
        assert ids[k] == ops[i].objectId;
      }
      assert forall k | 0 <= k < |batch| :: batch[k] in batch && batch[k] in toMove;
      MovedStaysPlaced(ops, old(objects), objects, cids, batch, directory);
    }

    // Concurrent renames: after a failure some of the others may still be carried out.
    method RenameAll(group: seq<nat>, seen: seq<Seen>, directory: string) returns (ok: bool)
      requires Valid() && directory in cids && Group(ops, group, directory) && Arrived(ops, objects, group, cids[directory])
      requires |seen| == |group| && forall k | 0 <= k < |group| :: seen[k].name == objects[ops[group[k]].objectId].name
      modifies this`objects
      ensures Valid() && Conserved(old(objects), objects) && ChangedOnly(old(objects), objects, ObjectIds(ops, group))
      ensures ParentsKept(old(objects), objects)
      ensures ok ==> forall k | 0 <= k < |group| :: objects[ops[group[k]].objectId].name == ops[group[k]].targetName
      ensures reliable ==> ok
    {
      ok := true;
      ghost var ids := ObjectIds(ops, group);
      assert forall k, l | 0 <= k < l < |group| :: ids[k] != ids[l];
      for k := 0 to |group|
        invariant Valid() && Conserved(old(objects), objects) && ChangedOnly(old(objects), objects, ids)
        invariant ParentsKept(old(objects), objects)
        invariant forall l | k <= l < |group| :: seen[l].name == objects[ids[l]].name
        invariant ok ==> forall l | 0 <= l < k :: objects[ids[l]].name == ops[group[l]].targetName
        invariant reliable ==> ok
      {
        var goOn: bool := *;
        if ok || goOn {
          var renamed := RenameOne(group[k], seen[k].name);
          ok := ok && renamed;
        }
      }
    }

    method RenameOne(i: nat, seenName: string) returns (ok: bool)
      requires Valid() && i < |ops| && seenName == objects[ops[i].objectId].name
      requires ops[i].targetName != ops[i].expectedName ==> objects[ops[i].objectId].parent == cids[ops[i].directory]
      requires ops[i].status != Completed
      modifies this`objects
      ensures Valid() && Conserved(old(objects), objects)
      ensures forall id | id in objects && id != ops[i].objectId :: objects[id] == old(objects)[id]
      ensures ParentsKept(old(objects), objects)
      ensures ok ==> objects[ops[i].objectId].name == ops[i].targetName
      ensures reliable ==> ok
    {
      ok := true;
      if seenName != ops[i].targetName {
        ok := Rename(ops[i].objectId, ops[i].targetName);
        assert forall j | 0 <= j < |ops| && j != i :: ops[j].objectId != ops[i].objectId;
      }
    }

    // The names and bytes read back are the planned ones.
    method VerifyGroup(group: seq<nat>) returns (ok: bool)
      requires Valid() && forall k | 0 <= k < |group| :: group[k] < |ops|
      ensures ok ==> forall k | 0 <= k < |group| :: AsPlanned(ops[group[k]], objects[ops[group[k]].objectId])
      ensures reliable && (forall k | 0 <= k < |group| :: AsPlanned(ops[group[k]], objects[ops[group[k]].objectId])) ==> ok
    {
      var seen := ReadGroup(group);
      if seen.None? {
        return false;
      }
      ok := forall k | 0 <= k < |group| ::
        seen.value[k].name == ops[group[k]].targetName && SameBytes(ops[group[k]], seen.value[k].size, seen.value[k].sha1);
    }

    // One group, from any point an earlier run may have stopped at.
    method ApplyGroup(group: seq<nat>, directory: string) returns (ok: bool)
      requires Valid() && directory in cids && Group(ops, group, directory)
      modifies this`ops, this`objects
      ensures Kept(old(Now()), Now(), cids)
      ensures forall i | 0 <= i < |ops| && i !in group :: ops[i] == old(ops)[i]
      ensures ok ==> forall k | 0 <= k < |group| :: ops[group[k]].status.Completed?
      ensures reliable && Agreeable(old(ops), old(objects), group) ==> ok
    {
      var duplicate := exists k, l | 0 <= k < l < |group| :: ops[group[k]].targetName == ops[group[l]].targetName;
      if duplicate {
        return false;
      }
      var seen := ReadGroup(group);
      if seen.None? {
        return false;
      }
      var toMove;
      ok, toMove := CheckGroup(group, seen.value, directory);
      if ok {
        ok := Transfer(group, seen.value, toMove, directory);
      }
    }

    method Transfer(group: seq<nat>, seen: seq<Seen>, toMove: seq<nat>, directory: string) returns (ok: bool)
      requires Valid() && directory in cids && Group(ops, group, directory)
      requires |seen| == |group| && forall k | 0 <= k < |group| :: seen[k] == SeenOf(objects[ops[group[k]].objectId])
      requires forall k | 0 <= k < |group| :: SameBytes(ops[group[k]], seen[k].size, seen[k].sha1)
      requires NeedMoving(ops, objects, group, toMove, cids[directory])
      modifies this`ops, this`objects
      ensures Valid() && SamePlan(old(ops), ops) && Conserved(old(objects), objects)
      ensures ChangedOnly(old(objects), objects, ObjectIds(old(ops), group))
      ensures forall i | 0 <= i < |ops| && i !in group :: ops[i] == old(ops)[i]
      ensures ok ==> forall k | 0 <= k < |group| :: ops[group[k]].status.Completed?
      ensures reliable ==> ok
    {
      ok := MoveStage(group, toMove, directory);
      if ok {
        ok := RenameStage(group, seen, directory);
      }
      if ok {
        ok := VerifyGroup(group);
      }
      if ok {
        ok := Record(group, group, Completed, directory);
      }
    }

    method MoveStage(group: seq<nat>, toMove: seq<nat>, directory: string) returns (ok: bool)
      requires Valid() && directory in cids && Group(ops, group, directory)
      requires NeedMoving(ops, objects, group, toMove, cids[directory])
      modifies this`ops, this`objects
      ensures Valid() && SamePlan(old(ops), ops) && Conserved(old(objects), objects)
      ensures ChangedOnly(old(objects), objects, ObjectIds(old(ops), group)) && NamesKept(old(objects), objects)
      ensures forall i | 0 <= i < |ops| && i !in group :: ops[i] == old(ops)[i]
      ensures ok ==> Group(ops, group, directory) && Arrived(ops, objects, group, cids[directory])
      ensures reliable ==> ok
    {
      ok := MoveAll(group, toMove, directory);
      if ok {
        ok := Record(group, toMove, Moved, directory);
      }
    }

    method RenameStage(group: seq<nat>, seen: seq<Seen>, directory: string) returns (ok: bool)
      requires Valid() && directory in cids && Group(ops, group, directory) && Arrived(ops, objects, group, cids[directory])
      requires |seen| == |group| && forall k | 0 <= k < |group| :: seen[k].name == objects[ops[group[k]].objectId].name
      modifies this`ops, this`objects
      ensures Valid() && SamePlan(old(ops), ops) && Conserved(old(objects), objects)
      ensures ChangedOnly(old(objects), objects, ObjectIds(old(ops), group))
      ensures forall i | 0 <= i < |ops| && i !in group :: ops[i] == old(ops)[i]
      ensures Arrived(ops, objects, group, cids[directory])
      ensures ok ==> forall k | 0 <= k < |group| :: objects[ops[group[k]].objectId].name == ops[group[k]].targetName
      ensures reliable ==> ok
    {
      ok := RenameAll(group, seen, directory);
      if ok {
        ok := Record(group, group, Renamed, directory);
      }
    }

    // Records a step of the group's operations once their objects are in the target folder.
    method Record(group: seq<nat>, rows: seq<nat>, status: Status, directory: string) returns (ok: bool)
      requires Valid() && directory in cids && (forall k | 0 <= k < |group| :: group[k] < |ops| && ops[group[k]].directory == directory)
      requires Arrived(ops, objects, group, cids[directory])
      requires forall i | i in rows :: i in group
      requires status.Completed? ==> forall k | 0 <= k < |group| :: objects[ops[group[k]].objectId].name == ops[group[k]].targetName
      modifies this`ops
      ensures Valid() && SamePlan(old(ops), ops) && Arrived(ops, objects, group, cids[directory])
      ensures forall i | 0 <= i < |ops| && i !in rows :: ops[i] == old(ops)[i]
      ensures ok ==> forall i | i in rows :: i < |ops| && ops[i].status == status
      ensures reliable ==> ok
    {
      assert forall k | 0 <= k < |rows| :: rows[k] in rows && rows[k] in group;
      ok := SetStatus(rows, status);
    }

    /******* Whole runs *******/

    method SelectUnfinished() returns (rows: seq<nat>)
      ensures Rising(ops, rows)
      ensures forall i: nat | i < |ops| :: i in rows <==> Unfinished(ops[i])
    {
      rows := [];
      for i := 0 to |ops|
        invariant Rising(ops, rows) && forall k | 0 <= k < |rows| :: rows[k] < i
        invariant forall j: nat | j < |ops| :: j in rows <==> j < i && Unfinished(ops[j])
      {
        if Unfinished(ops[i]) {
          rows := rows + [i];
        }
      }
    }

    // The rows of one phase and target folder, and the others.
    method SplitGroup(rows: seq<nat>, phase: nat, directory: string) returns (group: seq<nat>, other: seq<nat>)
      requires Rising(ops, rows) && rows != [] && ops[rows[0]].phase == phase && ops[rows[0]].directory == directory
      ensures Rising(ops, group) && Rising(ops, other) && |other| < |rows|
      ensures forall i: nat | i < |ops| :: i in rows <==> i in group || i in other
      ensures forall i | i in group :: i in rows && InGroup(ops, i, phase, directory)
      ensures forall i | i in other :: i in rows && !InGroup(ops, i, phase, directory)
    {
      group, other := [], [];
      for k := 0 to |rows|
        invariant Rising(ops, group) && Rising(ops, other)
        invariant forall l | 0 <= l < |group| :: k > 0 && group[l] <= rows[k - 1]
        invariant forall l | 0 <= l < |other| :: k > 0 && other[l] <= rows[k - 1]
        invariant forall i | i in group || i in other :: i in rows[..k]
        invariant forall i: nat | i < |ops| :: i in rows[..k] <==> i in group || i in other
        invariant forall i | i in group :: InGroup(ops, i, phase, directory)
        invariant forall i | i in other :: !InGroup(ops, i, phase, directory)
        invariant |other| <= k && (k > 0 ==> |other| < k)
      {
        assert rows[..k + 1] == rows[..k] + [rows[k]];
        if InGroup(ops, rows[k], phase, directory) {
          group := group + [rows[k]];
        } else {
          other := other + [rows[k]];
        }
      }
      assert rows[..|rows|] == rows;
    }

    // One run: every group of unfinished operations in turn, up to the first failure.
    method Run() returns (ok: bool)
      requires Valid()
      modifies this`ops, this`objects
      ensures Kept(old(Now()), Now(), cids)
      ensures forall i | 0 <= i < |ops| && !Unfinished(old(ops)[i]) :: ops[i] == old(ops)[i]
      ensures ok ==> forall i | 0 <= i < |ops| && Unfinished(old(ops)[i]) :: ops[i].status.Completed?
      ensures reliable && NothingToRefuse(old(ops), old(objects)) ==> ok
    {
      var rest: seq<nat> := SelectUnfinished();
      ok := true;
      while rest != []
        invariant Progress(old(Now()), Now(), rest, cids)
        decreases |rest|
      {
        var phase, directory := ops[rest[0]].phase, ops[rest[0]].directory;
        var group, other := SplitGroup(rest, phase, directory);
        ghost var before := Now();
        GroupOf(old(Now()), before, rest, group, phase, directory, cids);
        ok := ApplyGroup(group, directory);
        KeptTransitive(old(Now()), before, Now(), cids);
        OneGroup(old(Now()), before, Now(), rest, group, other, cids);
        if !ok {
          return;
        }
        rest := other;
      }
    }

    // command_augment_residuals: what is left in the old folders is added once nothing is pending or failed. An object
    // that is already in the plan is refused, and then nothing is added.
    method AddResiduals(residuals: seq<Operation>) returns (ok: bool)
      requires Valid() && forall i | 0 <= i < |residuals| :: AsSeen(residuals[i], objects, cids)
      modifies this`ops
      ensures Valid()
      ensures ok ==> ops == old(ops) + residuals && NothingOpen(old(ops)) && UniqueObjects(ops)
      ensures !ok ==> ops == old(ops)
      ensures reliable && NothingOpen(old(ops)) && UniqueObjects(old(ops) + residuals) ==> ok
    {
      ok := false;
      if !NothingOpen(ops) {
        return;
      }
      var all := ops + residuals;
      var committed: bool := *;
      if UniqueObjects(all) && (committed || reliable) {
        AddedIsPlaced(ops, residuals, objects, cids);
        ops := all;
        ok := true;
      }
    }

    // Any number of runs of a fresh plan, or of one that was worked on and extended, each stopping
    // anywhere: a completed operation's object is in its planned folder under its planned name exactly
    // when its name was to change or it started there. The others were never moved.
    method Lifetime(runs: nat)
      requires Valid()
      modifies this
      ensures Kept(old(Now()), Now(), cids)
      ensures forall i | 0 <= i < |ops| && ops[i].status.Completed? ::
                var o, target := objects[ops[i].objectId], cids[ops[i].directory];
                o.parent == target && o.name == ops[i].targetName <==>
                ops[i].targetName != ops[i].expectedName || ops[i].expectedParent == target
    {
      for r := 0 to runs
        invariant Kept(old(Now()), Now(), cids)
      {
        ghost var before := Now();
        reliable := *;
        var ok := Run();
        KeptTransitive(old(Now()), before, Now(), cids);
      }
    }
  }

  // From a planner's plan on.
  method PlanLifetime(ops: seq<Operation>, objects: map<Id, Object>, cids: map<string, Id>, runs: nat)
    returns (worked: seq<Operation>, account: map<Id, Object>)
    requires FreshPlan(ops, objects, cids)
    ensures SamePlan(worked, ops) && Conserved(objects, account) && OthersUntouched(ops, objects, account)
    ensures forall i | 0 <= i < |worked| && worked[i].status.Completed? ::
              var o, target := account[ops[i].objectId], cids[ops[i].directory];
              o.parent == target && o.name == ops[i].targetName <==> ops[i].targetName != ops[i].expectedName || ops[i].expectedParent == target
  {
    FreshPlanIsPlaced(ops, objects, cids);
    var script := new Script(ops, objects, cids, false);
    script.Lifetime(runs);
    worked, account := script.ops, script.objects;
  }

  // A plan that keeps a file's name is reported complete although the file never moved.
  method SameNameIsNeverMoved() returns (ok: bool, op: Operation, o: Object, target: Id)
    ensures ok && op.status.Completed? && op.targetName == op.expectedName
    ensures o.parent == op.expectedParent != target
  {
    op := Operation(3, "1", "from", "a.mkv", 1, "", "season", "a.mkv", Pending);
    o := Object("from", "a.mkv", 1, "");
    var script := new Script([op], map["1" := o], map["season" := "to"], true);
    ok := script.Run();
    op, o, target := script.ops[0], script.objects["1"], script.cids["season"];
  }
}
