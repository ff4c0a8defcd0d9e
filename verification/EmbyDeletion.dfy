// Recycling the 115 originals behind an Emby deletion: a preflighted plan binds every original to an identity,
// and each identity is checked again right before it is recycled.
module EmbyDeletion {
  import opened Common
  import opened Text
  import Cloud

  /******* Managed libraries *******/

  // An absolute path, by component.
  type Path = seq<string>

  datatype Library = Library(visible: Path, cid: Id, native: bool)

  predicate Inside(base: Path, path: Path) {
    base <= path
  }

  predicate NoNesting(libraries: seq<Library>) {
    forall i, j | 0 <= i < j < |libraries| ::
      !Inside(libraries[i].visible, libraries[j].visible) && !Inside(libraries[j].visible, libraries[i].visible)
  }

  // Refuses any two locations one of which is inside the other.
  method ManagedLibraries(mapped: seq<Library>) returns (libraries: Option<seq<Library>>)
    ensures libraries == if NoNesting(mapped) && mapped != [] then Some(mapped) else None
  {
    for i := 0 to |mapped|
      invariant NoNesting(mapped[..i])
    {
      assert mapped[..i + 1] == mapped[..i] + [mapped[i]];
      if exists j | 0 <= j < i :: Inside(mapped[j].visible, mapped[i].visible) || Inside(mapped[i].visible, mapped[j].visible) {
        return None;
      }
    }
    assert mapped[..|mapped|] == mapped;
    libraries := if mapped == [] then None else Some(mapped);
  }

  // Two bases of one path are nested.
  lemma BasesNest(a: Path, b: Path, path: Path)
    requires Inside(a, path) && Inside(b, path)
    ensures Inside(a, b) || Inside(b, a)
  {
    if |a| <= |b| {
      assert forall i | 0 <= i < |a| :: a[i] == path[i] == b[i];
    } else {
      assert forall i | 0 <= i < |b| :: b[i] == path[i] == a[i];
    }
  }

  // The library of a path strictly inside it; `None` for a library root and for what no library manages.
  // A second library is never met: the locations are not nested.
  method SelectLibrary(libraries: seq<Library>, visible: Path) returns (selected: Option<Library>)
    requires NoNesting(libraries)
    ensures selected.Some? ==> selected.value in libraries && Inside(selected.value.visible, visible) && selected.value.visible != visible
    ensures selected.Some? ==> forall l | l in libraries && Inside(l.visible, visible) :: l == selected.value
    ensures selected.None? ==> forall l | l in libraries && Inside(l.visible, visible) :: exists m | m in libraries :: m.visible == visible
  {
    selected := None;
    for i := 0 to |libraries|
      invariant selected.Some? ==>
                  && selected.value in libraries[..i] && Inside(selected.value.visible, visible) && selected.value.visible != visible
      invariant forall l | l in libraries[..i] && Inside(l.visible, visible) :: selected == Some(l)
    {
      assert libraries[..i + 1] == libraries[..i] + [libraries[i]];
      if visible == libraries[i].visible {
        assert libraries[i] in libraries;
        return None;
      }
      if Inside(libraries[i].visible, visible) {
        if selected.Some? {
          BasesNest(selected.value.visible, libraries[i].visible, visible);
          assert false;
        }
        selected := Some(libraries[i]);
      }
    }
    assert libraries[..|libraries|] == libraries;
  }

  /******* The 115 account *******/

  datatype File = File(parent: Id, name: string, isFolder: bool, size: int, sha1: string)

  datatype Entry = Entry(id: Id, file: File)

  // The calls issued; a completed inventory is recorded with what it showed.
  datatype Call = Listed(parent: Id, files: map<Id, File>) | DeleteCall(id: Id)

  function Children(objects: map<Id, File>, parent: Id): map<Id, File> {
    map id | id in objects && objects[id].parent == parent :: objects[id]
  }

  predicate ValidId(id: Id) {
    id != "" && id != "0" && id != "<nil>"
  }

  predicate ValidName(name: string) {
    name != "" && name != "." && name != ".." && '/' !in name && '\\' !in name && '\0' !in name
  }

  // What an inventory accepts: the parent's own children under distinct names.
  predicate CleanInventory(files: map<Id, File>, parent: Id) {
    && (forall id | id in files :: ValidId(id) && files[id].parent == parent && ValidName(files[id].name) && files[id].size >= 0)
    && forall a, b | a in files && b in files && a != b :: files[a].name != files[b].name
  }

  lemma WholeInventory(files: map<Id, File>, children: map<Id, File>)
    requires forall id | id in files :: id in children && files[id] == children[id]
    requires |files| == |children|
    ensures files == children
  {
    Cloud.SubsetOfSameSize(files.Keys, children.Keys);
  }

  // The file at the end of a chain of names below a folder.
  ghost predicate Chain(objects: map<Id, File>, cid: Id, parts: seq<string>, id: Id)
    decreases |parts|
  {
    parts != [] &&
    if |parts| == 1 then id in objects && objects[id].parent == cid && objects[id].name == parts[0] && !objects[id].isFolder
    else exists c | c in objects ::
      objects[c].parent == cid && objects[c].name == parts[0] && objects[c].isFolder && Chain(objects, c, parts[1..], id)
  }

  // Between the two nothing was deleted.
  predicate OnlyLooked(before: seq<Call>, after: seq<Call>) {
    before <= after && forall i | |before| <= i < |after| :: after[i].Listed?
  }

  class Drive {
    // When false, others change the account between our calls, and only the trace is promised.
    const quiet: bool
    var objects: map<Id, File>
    var log: seq<Call>

    method Page(parent: Id, offset: int) returns (ok: bool, page: seq<Entry>, total: int)
      modifies this`objects
      ensures quiet ==> objects == old(objects)
      ensures quiet && ok ==>
                total == |Children(objects, parent)| && forall e | e in page :: e.id in objects && e.file == objects[e.id]
      ensures total <= Cloud.MAX_INT64
    {
      ok, page, total := *, *, *;
      if quiet {
        total := |Children(objects, parent)|;
        ok := ok && forall e | e in page :: e.id in objects && e.file == objects[e.id];
      } else {
        objects := *;
      }
      if total > Cloud.MAX_INT64 {
        ok, total := false, 0;
      }
    }

    // The rows of one page join the inventory, or one of them is refused.
    method AddPage(parent: Id, files: map<Id, File>, page: seq<Entry>) returns (more: Option<map<Id, File>>)
      requires CleanInventory(files, parent)
      ensures more.Some? ==> CleanInventory(more.value, parent) && |more.value| == |files| + |page|
      ensures more.Some? ==> forall id | id in more.value ::
                (id in files && more.value[id] == files[id]) || Entry(id, more.value[id]) in page
    {
      var all := files;
      for i := 0 to |page|
        invariant |all| == |files| + i && CleanInventory(all, parent)
        invariant forall id | id in all :: (id in files && all[id] == files[id]) || Entry(id, all[id]) in page
      {
        var id, file := page[i].id, page[i].file;
        assert page[i] in page;
        if !ValidId(id) || file.parent != parent || !ValidName(file.name) || file.size < 0 || id in all ||
           exists other | other in all :: all[other].name == file.name
        {
          return None;
        }
        all := all[id := file];
      }
      more := Some(all);
    }

    // embyDeletionInventory: one directory, page by page, refusing anything ambiguous or incomplete.
    method Inventory(parent: Id) returns (r: Option<map<Id, File>>)
      modifies this`objects, this`log
      ensures log == if r.Some? then old(log) + [Listed(parent, r.value)] else old(log)
      ensures r.Some? ==> CleanInventory(r.value, parent)
      ensures quiet ==> objects == old(objects)
      ensures quiet && r.Some? ==> r.value == Children(objects, parent)
    {
      var files: map<Id, File> := map[];
      var expected := -1;
      while true
        invariant expected <= Cloud.MAX_INT64 && (expected < 0 ==> |files| == 0) && (expected >= 0 ==> |files| < expected)
        invariant log == old(log) && CleanInventory(files, parent)
        invariant quiet ==> objects == old(objects)
        invariant quiet ==> forall id | id in files :: id in objects && files[id] == objects[id]
        decreases Cloud.MAX_INT64 - |files|, -expected
      {
        var ok, page, total := Page(parent, |files|);
        if !ok || total < 0 || (expected >= 0 && total != expected) || total < |files| + |page| || (|page| == 0 && |files| < total) {
          return None;
        }
        expected := total;
        var more := AddPage(parent, files, page);
        if more.None? {
          return None;
        }
        files := more.value;
        if |files| == total {
          if quiet {
            WholeInventory(files, Children(objects, parent));
          }
          log := log + [Listed(parent, files)];
          return Some(files);
        }
      }
    }

    // Each folder is listed once per plan.
    method Known(cid: Id, known: map<Id, map<Id, File>>) returns (ok: bool, inventories: map<Id, map<Id, File>>)
      modifies this`objects, this`log
      ensures quiet ==> objects == old(objects)
      ensures quiet && True(known) ==> True(inventories)
      ensures ok ==> cid in inventories
      ensures OnlyLooked(old(log), log)
    {
      ok, inventories := true, known;
      if cid !in known {
        var files := Inventory(cid);
        ok := files.Some?;
        if ok {
          inventories := known[cid := files.value];
        }
      }
    }

    // resolveEmbyDeletionSource: down the names from the library's folder.
    method Resolve(cid: Id, parts: seq<string>, known: map<Id, map<Id, File>>)
        returns (r: Option<(Id, File)>, inventories: map<Id, map<Id, File>>)
      modifies this`objects, this`log
      ensures quiet ==> objects == old(objects)
      ensures quiet && True(known) ==> True(inventories)
      ensures quiet && True(known) && r.Some? ==>
                r.value.0 in objects && objects[r.value.0] == r.value.1 && Chain(objects, cid, parts, r.value.0)
      ensures OnlyLooked(old(log), log)
    {
      var folder, i := cid, 0;
      inventories := known;
      r := None;
      while i < |parts|
        invariant 0 <= i <= |parts|
        invariant quiet ==> objects == old(objects)
        invariant quiet && True(known) ==> True(inventories) && forall id :: Chain(objects, folder, parts[i..], id) ==> Chain(objects, cid, parts, id)
        invariant OnlyLooked(old(log), log)
      {
        var listed;
        listed, inventories := Known(folder, inventories);
        if !listed {
          return;
        }
        var files := inventories[folder];
        if !exists id | id in files :: files[id].name == parts[i] {
          return;
        }
        var id :| id in files && files[id].name == parts[i];
        var last := i == |parts| - 1;
        if files[id].isFolder == last {
          return;
        }
        if last {
          assert parts[i..] == [parts[i]];
          assert quiet && True(known) ==> Chain(objects, folder, parts[i..], id);
          return Some((id, files[id])), inventories;
        }
        assert parts[i..][1..] == parts[i + 1..];
        assert quiet && True(known) ==> forall f :: Chain(objects, id, parts[i + 1..], f) ==> Chain(objects, folder, parts[i..], f);
        folder, i := id, i + 1;
      }
    }

    predicate True(inventories: map<Id, map<Id, File>>)
      reads this
    {
      forall cid | cid in inventories :: inventories[cid] == Children(objects, cid)
    }

    // A provider deletion: carried out, failed without effect, or failed after its effect.
    method Delete(id: Id) returns (ok: bool)
      modifies this`objects, this`log
      ensures log == old(log) + [DeleteCall(id)]
      ensures quiet ==> objects == old(objects) - {id} || (!ok && objects == old(objects))
    {
      ok := *;
      var effect: bool := *;
      if ok || effect {
        objects := objects - {id};
      }
      if !quiet {
        objects := *;
      }
      log := log + [DeleteCall(id)];
    }
  }

  /******* The plan *******/

  // An original found under a path to delete: its Emby-visible path, its names below its library's folder, and
  // what the mount says of it.
  datatype Video = Video(path: string, parts: seq<string>, native: bool, size: int)

  datatype Original = Original(cid: Id, video: Video)

  datatype Target = Target(id: Id, file: File, path: string, native: bool)

  // The walk over the files below one path of a library; `None` where it refuses something.
  type Walk = (Library, Path) -> Option<seq<Video>>

  predicate Manages(l: Library, path: Path) {
    Inside(l.visible, path) && l.visible != path
  }

  predicate FoundIn(libraries: seq<Library>, walk: Walk, input: Path, o: Original) {
    exists l | l in libraries :: Manages(l, input) && walk(l, input).Some? && o.cid == l.cid && o.video in walk(l, input).value
  }

  predicate Covered(libraries: seq<Library>, walk: Walk, input: Path, os: seq<Original>) {
    exists l | l in libraries :: Manages(l, input) && walk(l, input).Some? && forall v | v in walk(l, input).value :: Original(l.cid, v) in os
  }

  predicate AreOriginals(libraries: seq<Library>, walk: Walk, inputs: seq<Path>, os: seq<Original>) {
    && (forall o | o in os :: exists input | input in inputs :: FoundIn(libraries, walk, input, o))
    && forall input | input in inputs :: Covered(libraries, walk, input, os)
  }

  method FindOriginals(libraries: seq<Library>, walk: Walk, inputs: seq<Path>) returns (r: Option<seq<Original>>)
    requires NoNesting(libraries)
    ensures r.Some? ==> AreOriginals(libraries, walk, inputs, r.value)
  {
    var os: seq<Original> := [];
    for i := 0 to |inputs|
      invariant forall o | o in os :: exists input | input in inputs[..i] :: FoundIn(libraries, walk, input, o)
      invariant forall input | input in inputs[..i] :: Covered(libraries, walk, input, os)
    {
      var input := inputs[i];
      assert inputs[..i + 1] == inputs[..i] + [input];
      var l := SelectLibrary(libraries, input);
      if l.None? {
        return None;
      }
      var videos := walk(l.value, input);
      if videos.None? {
        return None;
      }
      os := AddVideos(libraries, walk, inputs[..i], input, l.value, os);
    }
    assert inputs[..|inputs|] == inputs;
    r := Some(os);
  }

  method AddVideos(libraries: seq<Library>, walk: Walk, inputs: seq<Path>, input: Path, l: Library, os: seq<Original>) returns (more: seq<Original>)
    requires AreOriginals(libraries, walk, inputs, os) && l in libraries && Manages(l, input) && walk(l, input).Some?
    ensures AreOriginals(libraries, walk, inputs + [input], more)
  {
    var videos := walk(l, input).value;
    var added := seq(|videos|, i requires 0 <= i < |videos| => Original(l.cid, videos[i]));
    more := os + added;
    forall o | o in more
      ensures exists x | x in inputs + [input] :: FoundIn(libraries, walk, x, o)
    {
      if o in os {
        var x :| x in inputs && FoundIn(libraries, walk, x, o);
        assert x in inputs + [input];
      } else {
        var i :| 0 <= i < |videos| && added[i] == o;
        assert FoundIn(libraries, walk, input, o);
        assert input in inputs + [input];
      }
    }
    forall v | v in videos
      ensures Original(l.cid, v) in more
    {
      var i :| 0 <= i < |videos| && videos[i] == v;
      assert added[i] in added;
    }
    forall x | x in inputs
      ensures Covered(libraries, walk, x, more)
    {
      assert Covered(libraries, walk, x, os);
    }
  }

  predicate DistinctTargets(ts: seq<Target>) {
    forall i, j | 0 <= i < j < |ts| :: ts[i].id != ts[j].id && ts[i].path != ts[j].path
  }

  // The target is the identity the account has for the original.
  ghost predicate Binds(objects: map<Id, File>, o: Original, t: Target) {
    && t.path == o.video.path && t.id in objects && objects[t.id] == t.file && t.file.size == o.video.size
    && Chain(objects, o.cid, o.video.parts, t.id)
  }

  ghost predicate BoundBySome(objects: map<Id, File>, os: seq<Original>, t: Target) {
    exists o | o in os :: Binds(objects, o, t)
  }

  predicate NativeBySome(os: seq<Original>, path: string) {
    exists o | o in os :: o.video.path == path && o.video.native
  }

  predicate HasPath(ts: seq<Target>, path: string) {
    exists t | t in ts :: t.path == path
  }

  // The targets are exactly the originals, each path and each identity once.
  ghost predicate IsPlan(objects: map<Id, File>, os: seq<Original>, ts: seq<Target>) {
    && DistinctTargets(ts)
    && (forall o | o in os :: HasPath(ts, o.video.path))
    && forall t | t in ts :: BoundBySome(objects, os, t) && (t.native <==> NativeBySome(os, t.path))
  }

  method BindOriginals(drive: Drive, os: seq<Original>) returns (r: Option<seq<Target>>)
    modifies drive`objects, drive`log
    ensures drive.quiet ==> drive.objects == old(drive.objects)
    ensures OnlyLooked(old(drive.log), drive.log)
    ensures r.Some? ==> DistinctTargets(r.value)
    ensures drive.quiet && r.Some? ==> IsPlan(drive.objects, os, r.value)
  {
    var ts: seq<Target> := [];
    var inventories: map<Id, map<Id, File>> := map[];
    for i := 0 to |os|
      invariant drive.quiet ==> drive.objects == old(drive.objects) && drive.True(inventories)
      invariant OnlyLooked(old(drive.log), drive.log)
      invariant DistinctTargets(ts)
      invariant drive.quiet ==> IsPlan(drive.objects, os[..i], ts)
    {
      var o := os[i];
      assert os[..i + 1] == os[..i] + [o];
      if exists k | 0 <= k < |ts| :: ts[k].path == o.video.path {
        var k :| 0 <= k < |ts| && ts[k].path == o.video.path;
        if drive.quiet {
          SeenAgain(drive.objects, os[..i], ts, o, k);
        }
        ts := ts[k := ts[k].(native := ts[k].native || o.video.native)];
      } else {
        var file;
        file, inventories := drive.Resolve(o.cid, o.video.parts, inventories);
        if file.None? || file.value.1.size != o.video.size || exists t | t in ts :: t.id == file.value.0 {
          return None;
        }
        var t := Target(file.value.0, file.value.1, o.video.path, o.video.native);
        assert forall k | 0 <= k < |ts| :: ts[k] in ts;
        if drive.quiet {
          FirstSeen(drive.objects, os[..i], ts, o, t);
        }
        ts := ts + [t];
      }
    }
    assert os[..|os|] == os;
    r := Some(ts);
  }

  lemma SeenAgain(objects: map<Id, File>, os: seq<Original>, ts: seq<Target>, o: Original, k: nat)
    requires IsPlan(objects, os, ts) && k < |ts| && ts[k].path == o.video.path
    ensures IsPlan(objects, os + [o], ts[k := ts[k].(native := ts[k].native || o.video.native)])
  {
    var more := ts[k := ts[k].(native := ts[k].native || o.video.native)];
    assert forall x :: x in os + [o] <==> x in os || x == o;
    forall j | 0 <= j < |more|
      ensures BoundBySome(objects, os + [o], more[j]) && (more[j].native <==> NativeBySome(os + [o], more[j].path))
    {
      assert ts[j] in ts;
      var x :| x in os && Binds(objects, x, ts[j]);
      assert Binds(objects, x, more[j]);
    }
    forall x | x in os + [o]
      ensures HasPath(more, x.video.path)
    {
      if x == o {
        assert more[k] in more;
      } else {
        var t :| t in ts && t.path == x.video.path;
        var j :| 0 <= j < |ts| && ts[j] == t;
        assert more[j] in more;
      }
    }
  }

  lemma FirstSeen(objects: map<Id, File>, os: seq<Original>, ts: seq<Target>, o: Original, t: Target)
    requires IsPlan(objects, os, ts) && Binds(objects, o, t) && t.native == o.video.native && !HasPath(ts, t.path)
    requires forall u | u in ts :: u.id != t.id
    ensures IsPlan(objects, os + [o], ts + [t])
  {
    assert forall k | 0 <= k < |ts| :: ts[k] in ts;
    assert forall x :: x in os + [o] <==> x in os || x == o;
    assert t in ts + [t];
    forall u | u in ts + [t]
      ensures BoundBySome(objects, os + [o], u) && (u.native <==> NativeBySome(os + [o], u.path))
    {
      if u in ts {
        var x :| x in os && Binds(objects, x, u);
        assert x in os + [o];
      } else {
        assert !NativeBySome(os, t.path) by {
          assert forall x | x in os :: HasPath(ts, x.video.path);
        }
        assert o in os + [o];
      }
    }
    forall x | x in os + [o]
      ensures HasPath(ts + [t], x.video.path)
    {
      if x != o {
        var u :| u in ts && u.path == x.video.path;
        assert u in ts + [t];
      }
    }
  }

  // Sorted by path, which no two targets share.
  predicate ByPath(ts: seq<Target>) {
    forall i, j | 0 <= i < j < |ts| :: Less(ts[i].path, ts[j].path)
  }

  function InsertByPath(t: Target, ts: seq<Target>): seq<Target> {
    if ts == [] || Less(t.path, ts[0].path) then [t] + ts else [ts[0]] + InsertByPath(t, ts[1..])
  }

  lemma {:induction false} InsertedByPath(t: Target, ts: seq<Target>)
    requires ByPath(ts) && forall u | u in ts :: u.path != t.path
    ensures var more := InsertByPath(t, ts); ByPath(more) && |more| == |ts| + 1 && forall u :: u in more <==> u == t || u in ts
  {
    if ts != [] {
      assert ts == [ts[0]] + ts[1..];
      LessIsTotal(t.path, ts[0].path);
      if Less(t.path, ts[0].path) {
        forall j | 0 <= j < |ts|
          ensures Less(t.path, ts[j].path)
        {
          if j > 0 {
            LessIsTransitive(t.path, ts[0].path, ts[j].path);
          }
        }
      } else {
        var rest := InsertByPath(t, ts[1..]);
        InsertedByPath(t, ts[1..]);
        forall j | 0 <= j < |rest|
          ensures Less(ts[0].path, rest[j].path)
        {
          assert rest[j] in rest;
        }
      }
    }
  }

  // A list by path of the same targets: the plan's.
  predicate IsSorted(sorted: seq<Target>, ts: seq<Target>) {
    && ByPath(sorted) && |sorted| == |ts| && (forall t | t in ts :: t in sorted) && forall t | t in sorted :: t in ts
  }

  method SortByPath(ts: seq<Target>) returns (sorted: seq<Target>)
    requires DistinctTargets(ts)
    ensures IsSorted(sorted, ts) && DistinctTargets(sorted)
  {
    sorted := [];
    for i := 0 to |ts|
      invariant IsSorted(sorted, ts[..i])
    {
      assert ts[..i + 1] == ts[..i] + [ts[i]];
      forall u | u in ts[..i]
        ensures u.path != ts[i].path
      {
        var j :| 0 <= j < i && ts[j] == u;
      }
      InsertedByPath(ts[i], sorted);
      sorted := InsertByPath(ts[i], sorted);
    }
    assert ts[..|ts|] == ts;
    SortedDistinct(sorted, ts);
  }

  lemma SortedDistinct(sorted: seq<Target>, ts: seq<Target>)
    requires IsSorted(sorted, ts) && DistinctTargets(ts)
    ensures DistinctTargets(sorted)
  {
    forall i, j | 0 <= i < j < |sorted|
      ensures sorted[i].id != sorted[j].id && sorted[i].path != sorted[j].path
    {
      LessIsTotal(sorted[i].path, sorted[i].path);
      assert sorted[i] in ts && sorted[j] in ts;
      var k :| 0 <= k < |ts| && ts[k] == sorted[i];
      var l :| 0 <= l < |ts| && ts[l] == sorted[j];
      assert k != l;
    }
  }

  // PrepareEmbyDeletion: nothing is deleted, and the plan is exactly the originals below the given paths.
  method Prepare(drive: Drive, mapped: seq<Library>, walk: Walk, inputs: seq<Path>) returns (r: Option<seq<Target>>)
    modifies drive`objects, drive`log
    ensures OnlyLooked(old(drive.log), drive.log)
    ensures r.Some? ==> r.value != [] && DistinctTargets(r.value) && ByPath(r.value) && inputs != [] && NoNesting(mapped)
    ensures drive.quiet && r.Some? ==>
              exists os :: AreOriginals(mapped, walk, inputs, os) && IsPlan(old(drive.objects), os, r.value)
  {
    if inputs == [] {
      return None;
    }
    var libraries := ManagedLibraries(mapped);
    if libraries.None? {
      return None;
    }
    var os := FindOriginals(mapped, walk, inputs);
    if os.None? {
      return None;
    }
    var ts := BindOriginals(drive, os.value);
    if ts.None? || ts.value == [] {
      return None;
    }
    var sorted := SortByPath(ts.value);
    if drive.quiet {
      SortedPlan(drive.objects, os.value, ts.value, sorted);
    }
    r := Some(sorted);
  }

  lemma SortedPlan(objects: map<Id, File>, os: seq<Original>, ts: seq<Target>, sorted: seq<Target>)
    requires IsPlan(objects, os, ts) && IsSorted(sorted, ts)
    ensures IsPlan(objects, os, sorted)
  {
    SortedDistinct(sorted, ts);
    forall o | o in os
      ensures HasPath(sorted, o.video.path)
    {
      var t :| t in ts && t.path == o.video.path;
      assert t in sorted;
    }
  }

  /******* Recycling *******/

  datatype Source = Source(recycled: bool, alreadyAbsent: bool)

  predicate SameIdentity(current: File, t: Target) {
    && !current.isFolder && current.name == t.file.name && current.parent == t.file.parent && current.size == t.file.size
    && Lower(current.sha1) == Lower(t.file.sha1)
  }

  // A deletion of a planned target whose identity the inventory right before it showed.
  predicate Justified(log: seq<Call>, i: nat, ts: seq<Target>)
    requires i < |log|
  {
    log[i].DeleteCall? ==>
      i > 0 && log[i - 1].Listed? && exists t | t in ts ::
        t.id == log[i].id && t.file.parent == log[i - 1].parent && t.id in log[i - 1].files && SameIdentity(log[i - 1].files[t.id], t)
  }

  function Deletes(log: seq<Call>): seq<Id> {
    if log == [] then [] else
      var last := log[|log| - 1];
      Deletes(log[..|log| - 1]) + if last.DeleteCall? then [last.id] else []
  }

  datatype Outcome = Recycled | Gone | Stopped(deleted: bool)

  // Calls added to a log, with every deletion among them justified.
  predicate Extends(before: seq<Call>, after: seq<Call>, ts: seq<Target>) {
    before <= after && forall i | |before| <= i < |after| :: Justified(after, i, ts)
  }

  lemma Looked(log: seq<Call>, parent: Id, files: map<Id, File>, ts: seq<Target>)
    ensures Extends(log, log + [Listed(parent, files)], ts) && Deletes(log + [Listed(parent, files)]) == Deletes(log)
  {
    assert (log + [Listed(parent, files)])[..|log|] == log;
  }

  lemma DeletedAfterLook(log: seq<Call>, files: map<Id, File>, ts: seq<Target>, t: Target)
    requires t in ts && t.id in files && SameIdentity(files[t.id], t)
    ensures var looked := log + [Listed(t.file.parent, files)];
      Extends(looked, looked + [DeleteCall(t.id)], ts) && Deletes(looked + [DeleteCall(t.id)]) == Deletes(looked) + [t.id]
  {
    var looked := log + [Listed(t.file.parent, files)];
    assert (looked + [DeleteCall(t.id)])[..|looked|] == looked;
  }

  lemma ExtendsTransitive(a: seq<Call>, b: seq<Call>, c: seq<Call>, ts: seq<Target>)
    requires Extends(a, b, ts) && Extends(b, c, ts)
    ensures Extends(a, c, ts)
  {
    forall i | |a| <= i < |c|
      ensures Justified(c, i, ts)
    {
      if i < |b| {
        assert Justified(b, i, ts) && c[i] == b[i] && (i > 0 ==> c[i - 1] == b[i - 1]);
      }
    }
  }

  // One target. `Stopped(true)` when the deletion was issued but not confirmed.
  method RecycleOne(drive: Drive, ts: seq<Target>, t: Target) returns (o: Outcome)
    requires t in ts
    modifies drive`objects, drive`log
    ensures Deletes(drive.log) == Deletes(old(drive.log)) + if o.Recycled? || o == Stopped(true) then [t.id] else []
    ensures Extends(old(drive.log), drive.log, ts)
    ensures o.Gone? ==> t.native
    ensures drive.quiet && o.Recycled? ==> drive.objects == old(drive.objects) - {t.id} && t.id in old(drive.objects)
    ensures drive.quiet && o.Gone? ==> drive.objects == old(drive.objects) && !(t.id in drive.objects && drive.objects[t.id].parent == t.file.parent)
    ensures drive.quiet ==> drive.objects == old(drive.objects) || drive.objects == old(drive.objects) - {t.id}
  {
    ghost var log := drive.log;
    var files := drive.Inventory(t.file.parent);
    if files.None? {
      return Stopped(false);
    }
    Looked(log, t.file.parent, files.value, ts);
    if t.id !in files.value {
      return if t.native then Gone else Stopped(false);
    }
    if !SameIdentity(files.value[t.id], t) {
      return Stopped(false);
    }
    ghost var looked := drive.log;
    DeletedAfterLook(log, files.value, ts, t);
    var ok := drive.Delete(t.id);
    ExtendsTransitive(log, looked, drive.log, ts);
    if !ok {
      return Stopped(true);
    }
    o := Confirm(drive, ts, t);
    ExtendsTransitive(log, looked + [DeleteCall(t.id)], drive.log, ts);
  }

  // The deletion counts only once a fresh inventory no longer lists the ID.
  method Confirm(drive: Drive, ts: seq<Target>, t: Target) returns (o: Outcome)
    modifies drive`objects, drive`log
    ensures o == Recycled || o == Stopped(true)
    ensures Deletes(drive.log) == Deletes(old(drive.log)) && Extends(old(drive.log), drive.log, ts)
    ensures drive.quiet ==> drive.objects == old(drive.objects)
  {
    var remaining := drive.Inventory(t.file.parent);
    if remaining.Some? {
      Looked(old(drive.log), t.file.parent, remaining.value, ts);
    }
    o := if remaining.None? || t.id in remaining.value then Stopped(true) else Recycled;
  }

  // The IDs of the recycled sources among the first n.
  function RecycledIds(ts: seq<Target>, sources: seq<Source>, n: nat): seq<Id>
    requires n <= |ts| && n <= |sources|
  {
    if n == 0 then []
    else if sources[n - 1].recycled then RecycledIds(ts, sources, n - 1) + [ts[n - 1].id]
    else RecycledIds(ts, sources, n - 1)
  }

  predicate Settled(t: Target, s: Source) {
    s.recycled != s.alreadyAbsent && (s.alreadyAbsent ==> t.native)
  }

  // Every object that is no target is there as it was.
  predicate OnlyTargetsGone(before: map<Id, File>, after: map<Id, File>, ts: seq<Target>) {
    forall id | id in before && (forall i | 0 <= i < |ts| :: ts[i].id != id) :: id in after && after[id] == before[id]
  }

  lemma OneMoreGone(before: map<Id, File>, mid: map<Id, File>, after: map<Id, File>, ts: seq<Target>, n: nat)
    requires n < |ts| && OnlyTargetsGone(before, mid, ts) && (after == mid || after == mid - {ts[n].id})
    ensures OnlyTargetsGone(before, after, ts)
  {
  }

  class Plan {
    const targets: seq<Target>
    var sources: seq<Source>
    var attempted: bool

    constructor (targets: seq<Target>)
      ensures this.targets == targets && !attempted && Valid() && Untouched(0)
    {
      this.targets := targets;
      sources, attempted := seq(|targets|, _ => Source(false, false)), false;
    }

    predicate Valid()
      reads this
    {
      |sources| == |targets|
    }

    // From source n on nothing has been recorded.
    predicate Untouched(n: nat)
      reads this
    {
      forall i | n <= i < |sources| :: sources[i] == Source(false, false)
    }

    predicate SettledTo(n: nat)
      reads this
    {
      n <= |sources| == |targets| && forall i | 0 <= i < n :: Settled(targets[i], sources[i])
    }

    // Recycles the targets in order, once in the plan's life. On success every source is exactly one of recycled and
    // already absent. Wherever it stops, the sources before that are settled, those after it untouched, and at most
    // the one it stopped at has a deletion without a flag.
    method Recycle(drive: Drive) returns (ok: bool, n: nat, unflagged: bool)
      requires Valid() && (!attempted ==> Untouched(0))
      modifies this`sources, this`attempted, drive`objects, drive`log
      ensures Valid() && (targets != [] ==> attempted) && Extends(old(drive.log), drive.log, targets)
      ensures old(attempted) || targets == [] ==> !ok && sources == old(sources) && attempted == old(attempted) && drive.log == old(drive.log)
      ensures !old(attempted) && targets != [] ==>
                && n <= |targets| && ok == (n == |targets|) && (unflagged ==> !ok) && SettledTo(n) && Untouched(n)
                && Deletes(drive.log) == Deletes(old(drive.log)) + RecycledIds(targets, sources, n) + if unflagged then [targets[n].id] else []
      ensures drive.quiet && ok ==> forall i | 0 <= i < |targets| && sources[i].recycled :: targets[i].id !in drive.objects
      ensures drive.quiet ==> OnlyTargetsGone(old(drive.objects), drive.objects, targets)
    {
      ok, n, unflagged := false, 0, false;
      if attempted || targets == [] {
        return;
      }
      attempted := true;
      while n < |targets|
        invariant Valid() && n <= |targets| && attempted && SettledTo(n) && Untouched(n) && !unflagged && !ok
        invariant Extends(old(drive.log), drive.log, targets)
        invariant Deletes(drive.log) == Deletes(old(drive.log)) + RecycledIds(targets, sources, n)
        invariant drive.quiet ==> forall i | 0 <= i < n && sources[i].recycled :: targets[i].id !in drive.objects
        invariant drive.quiet ==> OnlyTargetsGone(old(drive.objects), drive.objects, targets)
      {
        ghost var before, objects := drive.log, drive.objects;
        var o := RecycleNext(drive, n);
        ExtendsTransitive(old(drive.log), before, drive.log, targets);
        if drive.quiet {
          OneMoreGone(old(drive.objects), objects, drive.objects, targets, n);
        }
        if o.Stopped? {
          unflagged := o.deleted;
          return;
        }
        n := n + 1;
      }
      ok := true;
    }

    method RecycleNext(drive: Drive, n: nat) returns (o: Outcome)
      requires Valid() && n < |targets| && SettledTo(n) && Untouched(n)
      modifies this`sources, drive`objects, drive`log
      ensures Valid() && Extends(old(drive.log), drive.log, targets)
      ensures sources == if o.Stopped? then old(sources) else old(sources)[n := Source(o.Recycled?, o.Gone?)]
      ensures !o.Stopped? ==> SettledTo(n + 1) && Untouched(n + 1)
      ensures Deletes(drive.log) == Deletes(old(drive.log)) + if o.Recycled? || o == Stopped(true) then [targets[n].id] else []
      ensures !o.Stopped? ==>
                RecycledIds(targets, sources, n + 1) == RecycledIds(targets, old(sources), n) + if o.Recycled? then [targets[n].id] else []
      ensures drive.quiet ==> drive.objects == old(drive.objects) || drive.objects == old(drive.objects) - {targets[n].id}
      ensures drive.quiet && o.Recycled? ==> targets[n].id !in drive.objects
    {
      o := RecycleOne(drive, targets, targets[n]);
      if !o.Stopped? {
        SourceSettled(targets, sources, n, Source(o.Recycled?, o.Gone?));
        sources := sources[n := Source(o.Recycled?, o.Gone?)];
      }
    }
  }

  lemma SourceSettled(ts: seq<Target>, sources: seq<Source>, n: nat, s: Source)
    requires n < |ts| == |sources|
    ensures RecycledIds(ts, sources[n := s], n + 1) == RecycledIds(ts, sources, n) + if s.recycled then [ts[n].id] else []
  {
    SameIds(ts, sources, sources[n := s], n);
  }

  lemma {:induction false} SameIds(ts: seq<Target>, a: seq<Source>, b: seq<Source>, n: nat)
    requires n <= |ts| && n <= |a| && n <= |b| && a[..n] == b[..n]
    ensures RecycledIds(ts, a, n) == RecycledIds(ts, b, n)
  {
    if n > 0 {
      assert a[n - 1] == a[..n][n - 1] == b[..n][n - 1] == b[n - 1];
      assert a[..n - 1] == a[..n][..n - 1] == b[..n - 1];
      SameIds(ts, a, b, n - 1);
    }
  }

  predicate DistinctIds(ids: seq<Id>) {
    forall i, j | 0 <= i < j < |ids| :: ids[i] != ids[j]
  }

  lemma {:induction false} RecycledOnce(ts: seq<Target>, sources: seq<Source>, n: nat)
    requires DistinctTargets(ts) && n <= |ts| && n <= |sources|
    ensures DistinctIds(RecycledIds(ts, sources, n))
    ensures forall id | id in RecycledIds(ts, sources, n) :: exists i | 0 <= i < n :: ts[i].id == id
  {
    if n > 0 {
      RecycledOnce(ts, sources, n - 1);
      var before := RecycledIds(ts, sources, n - 1);
      forall k | 0 <= k < |before|
        ensures before[k] != ts[n - 1].id
      {
        assert before[k] in before;
      }
    }
  }

  // However often recycling a prepared plan is tried, no ID is deleted twice.
  method RecycleLifetime(drive: Drive, targets: seq<Target>, attempts: nat)
    requires DistinctTargets(targets) && drive.log == []
    modifies drive`objects, drive`log
    ensures DistinctIds(Deletes(drive.log))
  {
    var plan := new Plan(targets);
    ghost var n: nat, unflagged := 0, false;
    for i := 0 to attempts
      invariant plan.Valid() && fresh(plan) && plan.targets == targets && (!plan.attempted ==> plan.Untouched(0))
      invariant n <= |targets| && (unflagged ==> n < |targets|)
      invariant Deletes(drive.log) == RecycledIds(targets, plan.sources, n) + if unflagged then [targets[n].id] else []
      invariant !plan.attempted ==> n == 0 && !unflagged
    {
      ghost var tried := plan.attempted || targets == [];
      var ok, stop, left := plan.Recycle(drive);
      if !tried {
        n, unflagged := stop, left;
      }
    }
    RecycledOnce(targets, plan.sources, n);
    assert unflagged ==> targets[n].id !in RecycledIds(targets, plan.sources, n);
  }
}
