// The walk over what a share save left in the target directory, and its comparison with the manifest
// the user selected.
module ImportDiscovery {
  import opened Common
  import opened ShareSelection

  const MAX_DEPTH := 20
  const MAX_ENTRIES := 10_000

  // One object reached by the walk, with its path below the target and its depth.
  datatype Visit = Visit(file: File, path: seq<string>, depth: nat)

  // A selected leaf is known by name and size, any other by its ID.
  datatype Key = Selected(leaf: Leaf) | Whole(id: Id)

  function KeyOf(importAll: bool, file: File): Key {
    if importAll then Whole(file.id) else Selected(Leaf(file.name, file.size))
  }

  // What the walk has seen so far.
  datatype Found = Found(visited: set<Id>, entries: nat, leaves: map<Key, Visit>)

  // The directory listings, fixed while a discovery runs; they may be cyclic.
  type Listings = Id -> seq<File>

  /******* What the walk computes *******/

  // Every object at or below `file`, in the order the walk meets them. Below MAX_DEPTH nothing is listed.
  function Tree(lists: Listings, v: Visit): (r: seq<Visit>)
    decreases MAX_DEPTH + 1 - v.depth, 1
  {
    [v] + if !v.file.isFolder || v.depth > MAX_DEPTH then [] else Below(lists, v, lists(v.file.id))
  }

  function Below(lists: Listings, v: Visit, children: seq<File>): seq<Visit>
    requires v.depth <= MAX_DEPTH
    decreases MAX_DEPTH + 1 - v.depth, 0, |children|
  {
    if children == [] then []
    else Tree(lists, Child(v, children[0])) + Below(lists, v, children[1..])
  }

  function Child(v: Visit, file: File): Visit {
    Visit(file, v.path + [file.name], v.depth + 1)
  }

  // One object: `None` where the walk gives up.
  function Meet(s: Found, v: Visit, importAll: bool, wanted: set<Leaf>): Option<Found> {
    if v.depth > MAX_DEPTH || v.file.id in s.visited || s.entries + 1 > MAX_ENTRIES then None
    else
      var t := s.(visited := s.visited + {v.file.id}, entries := s.entries + 1);
      if v.file.isFolder then Some(t)
      else if !importAll && (Leaf(v.file.name, v.file.size) !in wanted || KeyOf(false, v.file) in s.leaves) then None
      else Some(t.(leaves := t.leaves[KeyOf(importAll, v.file) := v]))
  }

  function MeetAll(s: Found, vs: seq<Visit>, importAll: bool, wanted: set<Leaf>): Option<Found>
    decreases |vs|
  {
    if vs == [] then Some(s)
    else match Meet(s, vs[0], importAll, wanted)
      case None => None
      case Some(t) => MeetAll(t, vs[1..], importAll, wanted)
  }

  lemma {:induction false} MeetConcat(s: Found, a: seq<Visit>, b: seq<Visit>, importAll: bool, wanted: set<Leaf>)
    ensures MeetAll(s, a + b, importAll, wanted) ==
            match MeetAll(s, a, importAll, wanted) case None => None case Some(t) => MeetAll(t, b, importAll, wanted)
    decreases |a|
  {
    if a == [] {
      assert a + b == b;
    } else {
      assert (a + b)[1..] == a[1..] + b;
      match Meet(s, a[0], importAll, wanted)
      case None =>
      case Some(t) => MeetConcat(t, a[1..], b, importAll, wanted);
    }
  }

  /******* What that means *******/

  predicate DistinctIds(vs: seq<Visit>) {
    forall i, j | 0 <= i < j < |vs| :: vs[i].file.id != vs[j].file.id
  }

  // The manifest and the saved leaves are in bijection by name and size, as far as the walk got.
  predicate LeavesWanted(vs: seq<Visit>, wanted: set<Leaf>) {
    && (forall v | v in vs && !v.file.isFolder :: Leaf(v.file.name, v.file.size) in wanted)
    && forall i, j | 0 <= i < j < |vs| && !vs[i].file.isFolder && !vs[j].file.isFolder ::
         Leaf(vs[i].file.name, vs[i].file.size) != Leaf(vs[j].file.name, vs[j].file.size)
  }

  predicate Acceptable(vs: seq<Visit>, importAll: bool, wanted: set<Leaf>) {
    && DistinctIds(vs) && |vs| <= MAX_ENTRIES
    && (forall v | v in vs :: v.depth <= MAX_DEPTH)
    && (importAll || LeavesWanted(vs, wanted))
  }

  function VisitedIds(vs: seq<Visit>): set<Id> {
    set v | v in vs :: v.file.id
  }

  function LeafKeys(vs: seq<Visit>, importAll: bool): set<Key> {
    set v | v in vs && !v.file.isFolder :: KeyOf(importAll, v.file)
  }

  const Nothing := Found({}, 0, map[])

  // What the walk knows after an acceptable list of visits.
  predicate Knows(s: Found, vs: seq<Visit>, importAll: bool) {
    s.visited == VisitedIds(vs) && s.entries == |vs| && AreLeavesOf(s.leaves, vs, importAll)
  }

  predicate AreLeavesOf(items: map<Key, Visit>, vs: seq<Visit>, importAll: bool) {
    && items.Keys == LeafKeys(vs, importAll)
    && forall k | k in items :: items[k] in vs && !items[k].file.isFolder && KeyOf(importAll, items[k].file) == k
  }

  // The walk succeeds exactly on an acceptable tree, and then knows every leaf of it once.
  lemma {:induction false} MeetsAcceptable(vs: seq<Visit>, importAll: bool, wanted: set<Leaf>)
    ensures MeetAll(Nothing, vs, importAll, wanted).Some? <==> Acceptable(vs, importAll, wanted)
    ensures MeetAll(Nothing, vs, importAll, wanted).Some? ==> Knows(MeetAll(Nothing, vs, importAll, wanted).value, vs, importAll)
  {
    if vs != [] {
      var front, last := vs[..|vs| - 1], vs[|vs| - 1];
      assert vs == front + [last];
      MeetsAcceptable(front, importAll, wanted);
      MeetConcat(Nothing, front, [last], importAll, wanted);
      match MeetAll(Nothing, front, importAll, wanted)
      case None =>
        assert !Acceptable(front, importAll, wanted);
      case Some(s) =>
        assert MeetAll(s, [last], importAll, wanted) == Meet(s, last, importAll, wanted);
        MeetsOneMore(s, front, last, importAll, wanted);
    }
  }

  lemma MeetsOneMore(s: Found, front: seq<Visit>, last: Visit, importAll: bool, wanted: set<Leaf>)
    requires Acceptable(front, importAll, wanted) && Knows(s, front, importAll)
    ensures Meet(s, last, importAll, wanted).Some? <==> Acceptable(front + [last], importAll, wanted)
    ensures Meet(s, last, importAll, wanted).Some? ==> Knows(Meet(s, last, importAll, wanted).value, front + [last], importAll)
  {
    OneMoreId(front, last);
    if !importAll {
      OneMoreLeaf(front, last, wanted);
    }
    assert forall v :: v in front + [last] <==> v in front || v == last;
    var met := Meet(s, last, importAll, wanted);
    if met.Some? {
      KnowsOneMore(s, met.value, front, last, importAll);
    }
  }

  lemma KnowsOneMore(s: Found, t: Found, front: seq<Visit>, last: Visit, importAll: bool)
    requires Knows(s, front, importAll)
    requires t == Found(s.visited + {last.file.id}, s.entries + 1,
                        if last.file.isFolder then s.leaves else s.leaves[KeyOf(importAll, last.file) := last])
    ensures Knows(t, front + [last], importAll)
  {
    var vs := front + [last];
    assert forall v :: v in vs <==> v in front || v == last;
    assert VisitedIds(vs) == VisitedIds(front) + {last.file.id};
    assert LeafKeys(vs, importAll) == LeafKeys(front, importAll) + if last.file.isFolder then {} else {KeyOf(importAll, last.file)};
  }

  lemma OneMoreId(front: seq<Visit>, last: Visit)
    requires DistinctIds(front)
    ensures DistinctIds(front + [last]) <==> last.file.id !in VisitedIds(front)
  {
    var vs := front + [last];
    if last.file.id in VisitedIds(front) {
      var i :| 0 <= i < |front| && front[i].file.id == last.file.id;
      assert vs[i].file.id == vs[|front|].file.id;
    } else {
      assert forall i | 0 <= i < |front| :: front[i] in front;
    }
  }

  lemma OneMoreLeaf(front: seq<Visit>, last: Visit, wanted: set<Leaf>)
    requires LeavesWanted(front, wanted)
    ensures LeavesWanted(front + [last], wanted) <==>
            last.file.isFolder ||
            (Leaf(last.file.name, last.file.size) in wanted && KeyOf(false, last.file) !in LeafKeys(front, false))
  {
    var vs := front + [last];
    assert forall v :: v in vs <==> v in front || v == last;
    if !last.file.isFolder {
      if KeyOf(false, last.file) in LeafKeys(front, false) {
        var i :| 0 <= i < |front| && !front[i].file.isFolder && KeyOf(false, front[i].file) == KeyOf(false, last.file);
        assert Leaf(vs[i].file.name, vs[i].file.size) == Leaf(vs[|front|].file.name, vs[|front|].file.size);
      } else {
        forall i | 0 <= i < |front| && !front[i].file.isFolder
          ensures Leaf(front[i].file.name, front[i].file.size) != Leaf(last.file.name, last.file.size)
        {
          assert front[i] in front;
        }
      }
    }
  }

  /******* The whole discovery *******/

  // The walk's visits from the wanted roots among the target's children.
  function Forest(lists: Listings, files: seq<File>, roots: set<Id>): seq<Visit> {
    if files == [] then []
    else (if files[0].id in roots then Tree(lists, Visit(files[0], [files[0].name], 0)) else []) + Forest(lists, files[1..], roots)
  }

  function RootsSeen(files: seq<File>, roots: set<Id>): seq<Id> {
    if files == [] then []
    else (if files[0].id in roots then [files[0].id] else []) + RootsSeen(files[1..], roots)
  }

  function WantedKeys(wanted: set<Leaf>): set<Key> {
    set leaf | leaf in wanted :: Selected(leaf)
  }

  function RootSet(rootIds: seq<Id>): set<Id> {
    set id | id in rootIds
  }

  function Wanted(selections: seq<Selection>): set<Leaf> {
    set s | s in selections :: LeafOf(s)
  }

  // The target holds exactly what was saved: every root is there, the trees below them are finite, small
  // and repeat nothing, and in selective mode their leaves are the manifest, one each.
  predicate Discoverable(lists: Listings, target: Id, roots: set<Id>, importAll: bool, wanted: set<Leaf>) {
    var vs := Forest(lists, lists(target), roots);
    && Acceptable(vs, importAll, wanted)
    && (forall id | id in roots :: exists f | f in lists(target) :: f.id == id)
    && (importAll || LeafKeys(vs, false) == WantedKeys(wanted))
  }

  lemma {:induction false} RootsAreVisited(lists: Listings, files: seq<File>, roots: set<Id>)
    ensures forall id | id in RootsSeen(files, roots) :: id in VisitedIds(Forest(lists, files, roots)) && id in roots
    ensures forall f | f in files && f.id in roots :: f.id in RootsSeen(files, roots)
    ensures forall id | id in RootsSeen(files, roots) :: exists f | f in files :: f.id == id
  {
    if files != [] {
      RootsAreVisited(lists, files[1..], roots);
      assert files == [files[0]] + files[1..];
      var first := if files[0].id in roots then Tree(lists, Visit(files[0], [files[0].name], 0)) else [];
      VisitedConcat(first, Forest(lists, files[1..], roots));
      if files[0].id in roots {
        assert first[0].file.id == files[0].id && first[0] in first;
      }
    }
  }

  lemma VisitedConcat(a: seq<Visit>, b: seq<Visit>)
    ensures VisitedIds(a + b) == VisitedIds(a) + VisitedIds(b)
    ensures DistinctIds(a + b) ==> DistinctIds(b) && VisitedIds(a) !! VisitedIds(b)
  {
    if DistinctIds(a + b) {
      forall i, j | 0 <= i < |a| && 0 <= j < |b|
        ensures a[i].file.id != b[j].file.id
      {
        assert (a + b)[i] == a[i] && (a + b)[|a| + j] == b[j];
      }
      forall i, j | 0 <= i < j < |b|
        ensures b[i].file.id != b[j].file.id
      {
        assert (a + b)[|a| + i] == b[i] && (a + b)[|a| + j] == b[j];
      }
    }
  }

  lemma {:induction false} RootsAreDistinct(lists: Listings, files: seq<File>, roots: set<Id>)
    requires DistinctIds(Forest(lists, files, roots))
    ensures |RootSet(RootsSeen(files, roots))| == |RootsSeen(files, roots)|
  {
    if files != [] {
      var rest := RootsSeen(files[1..], roots);
      var first := if files[0].id in roots then Tree(lists, Visit(files[0], [files[0].name], 0)) else [];
      VisitedConcat(first, Forest(lists, files[1..], roots));
      RootsAreDistinct(lists, files[1..], roots);
      RootsAreVisited(lists, files[1..], roots);
      if files[0].id in roots {
        assert first[0] in first;
        OneMoreRoot(files[0].id, rest);
      } else {
        assert RootsSeen(files, roots) == rest;
      }
    }
  }

  lemma OneMoreRoot(id: Id, rest: seq<Id>)
    ensures RootSet([id] + rest) == {id} + RootSet(rest)
    ensures id !in rest && |RootSet(rest)| == |rest| ==> |RootSet([id] + rest)| == |[id] + rest|
  {
  }

  // Counting the roots met is enough: none can be met twice.
  lemma AllRootsSeen(lists: Listings, files: seq<File>, roots: set<Id>)
    requires DistinctIds(Forest(lists, files, roots))
    ensures |RootsSeen(files, roots)| == |roots| <==> forall id | id in roots :: exists f | f in files :: f.id == id
  {
    RootsAreDistinct(lists, files, roots);
    RootsAreVisited(lists, files, roots);
    var seen := RootSet(RootsSeen(files, roots));
    assert seen <= roots;
    if |seen| == |roots| {
      SameSize(seen, roots);
    }
    if forall id | id in roots :: exists f | f in files :: f.id == id {
      assert seen == roots;
    }
  }

  lemma SameSize<T>(a: set<T>, b: set<T>)
    requires a <= b && |a| == |b|
    ensures a == b
  {
    assert |b - a| == |b| - |a|;
  }

  // The two checks after the walk say that nothing is missing and nothing is left over.
  lemma CompleteWhen(keys: set<Key>, wanted: set<Leaf>)
    ensures (|keys| == |wanted| && forall leaf | leaf in wanted :: Selected(leaf) in keys) <==> keys == WantedKeys(wanted)
  {
    SameCount(wanted);
    if forall leaf | leaf in wanted :: Selected(leaf) in keys {
      assert WantedKeys(wanted) <= keys;
      if |keys| == |wanted| {
        SameSize(WantedKeys(wanted), keys);
      }
    } else {
      var leaf :| leaf in wanted && Selected(leaf) !in keys;
      assert Selected(leaf) in WantedKeys(wanted);
    }
  }

  lemma {:induction false} SameCount(wanted: set<Leaf>)
    ensures |WantedKeys(wanted)| == |wanted|
  {
    if leaf :| leaf in wanted {
      SameCount(wanted - {leaf});
      assert WantedKeys(wanted) == WantedKeys(wanted - {leaf}) + {Selected(leaf)};
    }
  }

  class Walker {
    const lists: Listings
    const importAll: bool
    const wanted: set<Leaf>
    // While set, every listing is served.
    const reliable: bool
    var visited: set<Id>
    var entries: nat
    var leaves: map<Key, Visit>

    constructor (lists: Listings, importAll: bool, wanted: set<Leaf>, reliable: bool)
      ensures this.lists == lists && this.importAll == importAll && this.wanted == wanted && this.reliable == reliable
      ensures State() == Nothing
    {
      this.lists, this.importAll, this.wanted, this.reliable := lists, importAll, wanted, reliable;
      visited, entries, leaves := {}, 0, map[];
    }

    function State(): Found
      reads this
    {
      Found(visited, entries, leaves)
    }

    method List(id: Id) returns (files: Option<seq<File>>)
      ensures files.Some? ==> files.value == lists(id)
      ensures reliable ==> files.Some?
    {
      var served: bool := *;
      files := if served || reliable then Some(lists(id)) else None;
    }

    // Whatever the listings are, cyclic ones included, the walk ends, and it has met the tree below `v`.
    method Walk(v: Visit) returns (ok: bool)
      requires v.depth <= MAX_DEPTH + 1
      modifies this
      ensures ok ==> MeetAll(old(State()), Tree(lists, v), importAll, wanted) == Some(State())
      ensures !ok && reliable ==> MeetAll(old(State()), Tree(lists, v), importAll, wanted).None?
      decreases MAX_DEPTH + 1 - v.depth
    {
      if v.depth > MAX_DEPTH || v.file.id in visited {
        return false;
      }
      visited := visited + {v.file.id};
      entries := entries + 1;
      if entries > MAX_ENTRIES {
        return false;
      }
      if !v.file.isFolder {
        var key := KeyOf(importAll, v.file);
        if !importAll && (Leaf(v.file.name, v.file.size) !in wanted || key in leaves) {
          return false;
        }
        leaves := leaves[key := v];
        return true;
      }
      var children := List(v.file.id);
      if children.None? {
        return false;
      }
      ok := WalkAll(v, children.value);
    }

    method WalkAll(v: Visit, children: seq<File>) returns (ok: bool)
      requires v.depth <= MAX_DEPTH
      modifies this
      ensures ok ==> MeetAll(old(State()), Below(lists, v, children), importAll, wanted) == Some(State())
      ensures !ok && reliable ==> MeetAll(old(State()), Below(lists, v, children), importAll, wanted).None?
      decreases MAX_DEPTH + 1 - v.depth, 0
    {
      ghost var start := State();
      for i := 0 to |children|
        invariant MeetAll(start, Below(lists, v, children), importAll, wanted) ==
                  MeetAll(State(), Below(lists, v, children[i..]), importAll, wanted)
      {
        var child := Child(v, children[i]);
        MeetConcat(State(), Tree(lists, child), Below(lists, v, children[i + 1..]), importAll, wanted);
        assert children[i..][1..] == children[i + 1..];
        ok := Walk(child);
        if !ok {
          return;
        }
      }
      assert children[|children|..] == [];
      ok := true;
    }

    method WalkRoots(files: seq<File>, roots: set<Id>) returns (found: Option<nat>)
      requires State() == Nothing
      modifies this
      ensures found.Some? ==> MeetAll(Nothing, Forest(lists, files, roots), importAll, wanted) == Some(State())
      ensures found.Some? ==> found.value == |RootsSeen(files, roots)|
      ensures found.None? && reliable ==> MeetAll(Nothing, Forest(lists, files, roots), importAll, wanted).None?
    {
      var n := 0;
      for i := 0 to |files|
        invariant MeetAll(Nothing, Forest(lists, files, roots), importAll, wanted) ==
                  MeetAll(State(), Forest(lists, files[i..], roots), importAll, wanted)
        invariant n + |RootsSeen(files[i..], roots)| == |RootsSeen(files, roots)|
      {
        assert files[i..][1..] == files[i + 1..];
        if files[i].id in roots {
          n := n + 1;
          var root := Visit(files[i], [files[i].name], 0);
          MeetConcat(State(), Tree(lists, root), Forest(lists, files[i + 1..], roots), importAll, wanted);
          var ok := Walk(root);
          if !ok {
            return None;
          }
        } else {
          assert Forest(lists, files[i..], roots) == Forest(lists, files[i + 1..], roots);
        }
      }
      assert files[|files|..] == [];
      found := Some(n);
    }
  }

  // The items to import, by key. With every listing served this succeeds exactly on a discoverable target.
  method DiscoverQuarkImport(lists: Listings, target: Id, rootIds: seq<Id>, selections: seq<Selection>, importAll: bool, reliable: bool)
      returns (items: Option<map<Key, Visit>>)
    ensures items.Some? ==> Discoverable(lists, target, RootSet(rootIds), importAll, Wanted(selections))
    ensures items.Some? ==> AreLeavesOf(items.value, Forest(lists, lists(target), RootSet(rootIds)), importAll)
    ensures reliable && Discoverable(lists, target, RootSet(rootIds), importAll, Wanted(selections)) ==> items.Some?
  {
    var roots, wanted := RootSet(rootIds), Wanted(selections);
    var walker := new Walker(lists, importAll, wanted, reliable);
    var files := walker.List(target);
    if files.None? {
      return None;
    }
    var found := walker.WalkRoots(files.value, roots);
    MeetsAcceptable(Forest(lists, lists(target), roots), importAll, wanted);
    if found.None? {
      return None;
    }
    AllRootsSeen(lists, lists(target), roots);
    if found.value != |roots| {
      return None;
    }
    if !importAll {
      CompleteWhen(walker.leaves.Keys, wanted);
      if |walker.leaves| != |wanted| || exists leaf | leaf in wanted :: Selected(leaf) !in walker.leaves {
        return None;
      }
    }
    items := Some(walker.leaves);
  }

  /******* From selection to discovery *******/

  predicate PlainRoots(files: seq<File>, roots: set<Id>) {
    forall f | f in files && f.id in roots :: !f.isFolder
  }

  // Below plain files there is nothing: the walk meets the roots themselves.
  lemma {:induction false} FlatForest(lists: Listings, files: seq<File>, roots: set<Id>)
    requires PlainRoots(files, roots)
    ensures var vs := Forest(lists, files, roots);
      && |vs| == |RootsSeen(files, roots)|
      && (forall v | v in vs :: v.file in files && v.file.id in roots && v.depth == 0)
      && (forall f | f in files && f.id in roots :: exists v | v in vs :: v.file == f)
      && (UniqueFiles(files) ==> DistinctIds(vs))
  {
    if files != [] {
      var rest := Forest(lists, files[1..], roots);
      assert files == [files[0]] + files[1..];
      FlatForest(lists, files[1..], roots);
      if files[0].id in roots {
        var first := Visit(files[0], [files[0].name], 0);
        assert Tree(lists, first) == [first];
        assert Forest(lists, files, roots) == [first] + rest;
        if UniqueFiles(files) {
          FirstIsDistinct(files, first, rest);
        }
      } else {
        assert Forest(lists, files, roots) == rest;
      }
    }
  }

  lemma FirstIsDistinct(files: seq<File>, first: Visit, rest: seq<Visit>)
    requires UniqueFiles(files) && files != [] && first.file == files[0] && (UniqueFiles(files[1..]) ==> DistinctIds(rest))
    requires forall v | v in rest :: v.file in files[1..]
    ensures DistinctIds([first] + rest)
  {
    assert UniqueFiles(files[1..]);
    forall i | 0 <= i < |rest|
      ensures rest[i].file.id != files[0].id
    {
      assert rest[i] in rest;
    }
  }

  lemma {:induction false} FewRoots(ids: seq<Id>)
    ensures |RootSet(ids)| <= |ids|
  {
    if ids != [] {
      FewRoots(ids[1..]);
      OneMoreRoot(ids[0], ids[1..]);
      assert ids == [ids[0]] + ids[1..];
    }
  }

  // The file in the target for each selection.
  predicate RootFiles(selected: seq<Entry>, after: seq<File>, ids: seq<Id>, files: seq<File>) {
    |selected| == |ids| == |files| &&
    forall i | 0 <= i < |files| :: files[i] in after && files[i].id == ids[i] && SavedAs(selected[i], files[i])
  }

  lemma FindRootFiles(selected: seq<Entry>, before: seq<File>, after: seq<File>, providerIds: seq<Id>, ids: seq<Id>, n: nat)
      returns (files: seq<File>)
    requires Resolved(selected, before, after, providerIds, ids) && n <= |selected|
    ensures |ids| == |selected| && RootFiles(selected[..n], after, ids[..n], files)
  {
    if n == 0 {
      return [];
    }
    files := FindRootFiles(selected, before, after, providerIds, ids, n - 1);
    var f := ResolvedIsListed(selected, before, after, providerIds, ids, n - 1);
    files := files + [f];
  }

  // A valid exact selection, saved and resolved, is discoverable as long as the listing it was resolved in
  // still holds and shows each ID once.
  lemma SelectionIsDiscoverable(lists: Listings, target: Id, entries: seq<Entry>, selections: seq<Selection>, selected: seq<Entry>,
                                before: seq<File>, providerIds: seq<Id>, ids: seq<Id>)
    requires Selects(entries, Ids(selections), selected) && Unchanged(selected, selections) && |selections| <= MAX_ENTRIES
    requires UniqueFiles(lists(target)) && Resolved(selected, before, lists(target), providerIds, ids)
    ensures Discoverable(lists, target, RootSet(ids), false, Wanted(selections))
  {
    var after, roots := lists(target), RootSet(ids);
    var files := FindRootFiles(selected, before, after, providerIds, ids, |selected|);
    assert selected[..|selected|] == selected && ids[..|selected|] == ids;
    OnlyRootFiles(after, ids, files, selected);
    FlatForest(lists, after, roots);
    var vs := Forest(lists, after, roots);
    AllRootsSeen(lists, after, roots);
    FewRoots(ids);
    assert forall i | 0 <= i < |ids| :: ids[i] in roots;
    RootLeaves(vs, selections, selected, files);
  }

  lemma OnlyRootFiles(after: seq<File>, ids: seq<Id>, files: seq<File>, selected: seq<Entry>)
    requires UniqueFiles(after) && RootFiles(selected, after, ids, files) && forall i | 0 <= i < |selected| :: !selected[i].isDir
    ensures PlainRoots(after, RootSet(ids))
    ensures forall f | f in after && f.id in RootSet(ids) :: f in files
    ensures forall id | id in RootSet(ids) :: exists f | f in after :: f.id == id
  {
    forall f | f in after && f.id in RootSet(ids)
      ensures f in files && !f.isFolder
    {
      var i :| 0 <= i < |ids| && ids[i] == f.id;
      var j :| 0 <= j < |after| && after[j] == f;
      var k :| 0 <= k < |after| && after[k] == files[i];
      assert j == k;
    }
    forall id | id in RootSet(ids)
      ensures exists f | f in after :: f.id == id
    {
      var i :| 0 <= i < |ids| && ids[i] == id;
      assert files[i] in after;
    }
  }

  lemma RootLeaves(vs: seq<Visit>, selections: seq<Selection>, selected: seq<Entry>, files: seq<File>)
    requires |selections| == |selected| == |files| && Unchanged(selected, selections) && DistinctIds(vs)
    requires forall i | 0 <= i < |files| :: SavedAs(selected[i], files[i]) && !selected[i].isDir
    requires forall i, j | 0 <= i < j < |files| :: OutputName(selected[i]) != OutputName(selected[j])
    requires forall v | v in vs :: v.file in files
    requires forall f | f in files :: exists v | v in vs :: v.file == f
    ensures LeavesWanted(vs, Wanted(selections)) && LeafKeys(vs, false) == WantedKeys(Wanted(selections))
  {
    forall i | 0 <= i < |files|
      ensures Leaf(files[i].name, files[i].size) == LeafOf(selections[i]) && LeafOf(selections[i]) in Wanted(selections)
      ensures Selected(LeafOf(selections[i])) in LeafKeys(vs, false)
    {
      assert selections[i] in selections && files[i] in files;
      var v :| v in vs && v.file == files[i];
    }
    forall a, b | 0 <= a < b < |vs|
      ensures Leaf(vs[a].file.name, vs[a].file.size) != Leaf(vs[b].file.name, vs[b].file.size)
    {
      assert vs[a] in vs && vs[b] in vs;
      var i :| 0 <= i < |files| && files[i] == vs[a].file;
      var j :| 0 <= j < |files| && files[j] == vs[b].file;
      assert i != j;
      assert files[i].name == selected[i].name && files[j].name == selected[j].name;
    }
    forall leaf | leaf in Wanted(selections)
      ensures Selected(leaf) in LeafKeys(vs, false)
    {
      var s :| s in selections && LeafOf(s) == leaf;
      var i :| 0 <= i < |selections| && selections[i] == s;
    }
  }
}
