// The outside world of one replacement: the 115 account seen through its listing,
// mkdir, move, rename and delete calls, and the STRM directory trees on local disk.
//
// A mutating call may be carried out, fail without effect, or fail after its effect.
// When `quiet` is false, anything at all may change between two calls; contracts about
// states are then void and only the trace of issued calls can be relied on.
module Cloud {
  import opened Common

  // One row of a directory listing, without its own ID.
  datatype Node = Node(parent: Id, name: string, isFolder: bool)

  datatype Entry = Entry(id: Id, node: Node)

  // The calls issued to the provider, in order. A completed directory inventory is recorded
  // with what it showed, a mkdir with the folder it made, if any, and a deletion with whether it was
  // carried out.
  datatype Call =
    | Listed(parent: Id, files: map<Id, Node>)
    | MkdirCall(parent: Id, name: string, made: Option<Id>)
    | ReceiveCall(id: Id)
    | MoveCall(id: Id, parent: Id)
    | RenameCall(id: Id, name: string)
    | DeleteCall(id: Id, carriedOut: bool)

  datatype StrmPath = InLibrary(folder: string) | InBackup(dir: string)

  // An STRM tree: the directory's inode and an opaque summary of its contents.
  datatype Tree = Tree(inode: int, contents: seq<(string, string)>, isRealDir: bool)

  datatype Lookup = Found(tree: Tree) | Absent | Unreadable

  // The account's root, which no listing shows.
  const ROOT: Id := "0"

  const MAX_INT64: int := 0x7fff_ffff_ffff_ffff

  function Children(objects: map<Id, Node>, parent: Id): map<Id, Node> {
    map id | id in objects && objects[id].parent == parent :: objects[id]
  }

  // replacementFolderIs: `cid` is listed as a folder called `name`, and nothing else has that name.
  predicate FolderIs(files: map<Id, Node>, cid: Id, name: string) {
    && cid in files
    && files[cid].isFolder
    && files[cid].name == name
    && forall id | id in files && id != cid :: files[id].name != name
  }

  // A set of objects with everything below them.
  predicate Closed(objects: map<Id, Node>, ids: set<Id>) {
    forall id | id in objects && objects[id].parent in ids :: id in ids
  }

  ghost predicate InEvery(objects: map<Id, Node>, root: Id, id: Id) {
    forall ids: set<Id> {:trigger Closed(objects, ids)} | root in ids && Closed(objects, ids) :: id in ids
  }

  // An object and everything below it.
  ghost function Subtree(objects: map<Id, Node>, root: Id): set<Id> {
    set id | id in objects.Keys + {root} && InEvery(objects, root, id)
  }

  lemma SubtreeIsClosed(objects: map<Id, Node>, root: Id)
    ensures root in Subtree(objects, root) && Closed(objects, Subtree(objects, root))
    ensures forall ids: set<Id> {:trigger Closed(objects, ids)} | root in ids && Closed(objects, ids) :: Subtree(objects, root) <= ids
  {
    var tree := Subtree(objects, root);
    forall id | id in objects && objects[id].parent in tree
      ensures id in tree
    {
      forall ids: set<Id> {:trigger Closed(objects, ids)} | root in ids && Closed(objects, ids)
        ensures id in ids
      {
        assert objects[id].parent in ids;
      }
    }
  }

  // New objects appeared at `cid` or below it, none of them known before.
  ghost predicate Received(before: map<Id, Node>, after: map<Id, Node>, cid: Id, added: set<Id>) {
    && after.Keys == before.Keys + added && added !! before.Keys && "" !in added && ROOT !in added && cid !in added
    && (forall id | id in before :: id in after && after[id] == before[id])
    && (forall id | id in added :: id in after && after[id].parent in added + {cid})
    && (forall id | id in before :: before[id].parent !in added)
    && added <= Subtree(after, cid)
  }

  function Moved(objects: map<Id, Node>, id: Id, parent: Id): map<Id, Node> {
    if id in objects then objects[id := objects[id].(parent := parent)] else objects
  }

  function Renamed(objects: map<Id, Node>, id: Id, name: string): map<Id, Node> {
    if id in objects then objects[id := objects[id].(name := name)] else objects
  }

  function At(dirs: map<StrmPath, Tree>, path: StrmPath): Option<Tree> {
    if path in dirs then Some(dirs[path]) else None
  }

  // A real directory with the given inode.
  predicate Owns(tree: Option<Tree>, inode: int) {
    tree.Some? && tree.value.isRealDir && tree.value.inode == inode
  }

  // The same directory, whatever its contents.
  predicate SameDir(a: Tree, b: Tree) {
    a.inode == b.inode && a.isRealDir == b.isRealDir
  }

  // A directory that was there is the same one still.
  predicate StaysDir(before: Option<Tree>, after: Option<Tree>) {
    before.Some? ==> after.Some? && SameDir(before.value, after.value)
  }

  // A page of distinct children that were not shown before, and not empty while any are missing.
  predicate GoodPage(page: seq<Entry>, children: map<Id, Node>, seen: set<Id>) {
    && (forall e | e in page :: e.id in children && e.node == children[e.id] && e.id !in seen)
    && (forall i, j | 0 <= i < j < |page| :: page[i].id != page[j].id)
    && (page == [] ==> children.Keys <= seen)
  }

  lemma GoodPageFits(page: seq<Entry>, children: map<Id, Node>, files: map<Id, Node>)
    requires GoodPage(page, children, files.Keys) && files.Keys <= children.Keys
    ensures |files| + |page| <= |children|
    ensures |page| == 0 ==> |files| == |children|
  {
    DistinctIds(page);
    var ids := set e | e in page :: e.id;
    assert ids !! files.Keys && ids + files.Keys <= children.Keys;
    SubsetSize(ids + files.Keys, children.Keys);
    if page == [] {
      assert files.Keys == children.Keys;
    }
  }

  lemma DistinctIds(page: seq<Entry>)
    requires forall i, j | 0 <= i < j < |page| :: page[i].id != page[j].id
    ensures |set e | e in page :: e.id| == |page|
  {
    if page != [] {
      var front, last := page[..|page| - 1], page[|page| - 1];
      DistinctIds(front);
      assert page == front + [last];
      assert (set e | e in page :: e.id) == (set e | e in front :: e.id) + {last.id};
      assert last.id !in set e | e in front :: e.id;
    }
  }

  // A duplicate-free inventory of real children whose size is the directory's size is the directory.
  lemma FullInventory(files: map<Id, Node>, children: map<Id, Node>)
    requires forall id | id in files :: id in children && files[id] == children[id]
    requires |files| == |children|
    ensures files == children
  {
    assert files.Keys <= children.Keys;
    SubsetOfSameSize(files.Keys, children.Keys);
  }

  lemma SubsetOfSameSize(a: set<Id>, b: set<Id>)
    requires a <= b && |a| == |b|
    ensures a == b
  {
    if x :| x in b && x !in a {
      assert a <= b - {x};
      SubsetSize(a, b - {x});
    }
  }

  lemma SubsetSize(a: set<Id>, b: set<Id>)
    requires a <= b
    ensures |a| <= |b|
  {
    assert b == a + (b - a);
  }

  class Site {
    const quiet: bool
    // While set, every call is carried out and reports so.
    var reliable: bool
    var objects: map<Id, Node>
    var dirs: map<StrmPath, Tree>
    var log: seq<Call>

    constructor (quiet: bool, objects: map<Id, Node>, dirs: map<StrmPath, Tree>)
      ensures this.quiet == quiet && !reliable && this.objects == objects && this.dirs == dirs && log == []
    {
      this.quiet, this.objects, this.dirs, this.log := quiet, objects, dirs, [];
      reliable := false;
    }

    // Whatever other agents do between two of our calls.
    method Drift()
      modifies this`objects, this`dirs, this`log
      ensures log == old(log)
      ensures quiet ==> objects == old(objects) && dirs == old(dirs)
    {
      if !quiet {
        objects := *;
        dirs := *;
      }
    }

    // One listing page. In a quiet world it shows real children and the true total, in any order
    // and possibly with repetitions; otherwise it is arbitrary. A reliable provider always shows
    // some children not in `seen` while there are any.
    method ListFilesPage(parent: Id, offset: int, seen: set<Id>) returns (ok: bool, page: seq<Entry>, total: int)
      modifies this`objects, this`dirs, this`log
      ensures log == old(log)
      ensures total <= MAX_INT64
      ensures quiet ==> objects == old(objects) && dirs == old(dirs)
      ensures quiet && ok ==>
                && total == |Children(objects, parent)|
                && forall e | e in page :: e.id in objects && e.node == objects[e.id]
      ensures quiet && reliable && |Children(objects, parent)| <= MAX_INT64 ==>
                ok && GoodPage(page, Children(objects, parent), seen)
    {
      Drift();
      ok, page, total := *, *, *;
      if quiet {
        var children := Children(objects, parent);
        total := |children|;
        if exists e | e in page :: e.id !in objects || e.node != objects[e.id] {
          ok := false;
        }
        if reliable {
          ok := true;
          if !GoodPage(page, children, seen) {
            page := [];
            if !(children.Keys <= seen) {
              var id :| id in children.Keys && id !in seen;
              page := [Entry(id, children[id])];
            }
          }
        }
      }
      if total > MAX_INT64 {
        ok, total := false, 0;
      }
    }

    // replacementFolders: page through one directory, refusing anything inconsistent.
    method ReplacementFolders(parent: Id) returns (ok: bool, files: map<Id, Node>)
      modifies this`objects, this`dirs, this`log
      ensures log == if ok then old(log) + [Listed(parent, files)] else old(log)
      ensures ok ==> "" !in files && forall id | id in files :: files[id].parent == parent
      ensures quiet ==> objects == old(objects) && dirs == old(dirs)
      ensures quiet && ok ==> files == Children(objects, parent)
      ensures quiet && reliable && "" !in objects && |objects| <= MAX_INT64 ==> ok
    {
      files := map[];
      var offset := 0;
      while true
        invariant 0 <= offset == |files|
        invariant offset <= MAX_INT64
        invariant log == old(log)
        invariant "" !in files && forall id | id in files :: files[id].parent == parent
        invariant quiet ==> objects == old(objects) && dirs == old(dirs)
        invariant quiet ==> forall id | id in files :: id in objects && files[id] == objects[id]
        decreases MAX_INT64 - offset
      {
        if quiet {
          SubsetSize(files.Keys, Children(objects, parent).Keys);
          SubsetSize(Children(objects, parent).Keys, objects.Keys);
        }
        var listed, page, total := ListFilesPage(parent, offset, files.Keys);
        if !listed {
          return false, map[];
        }
        ghost var certain := quiet && reliable && "" !in objects && |objects| <= MAX_INT64;
        if certain {
          GoodPageFits(page, Children(objects, parent), files);
        }
        if total < offset + |page| || (offset < total && |page| == 0) {
          return false, map[];
        }
        ghost var shown := files;
        for i := 0 to |page|
          invariant |files| == offset + i
          invariant "" !in files && forall id | id in files :: files[id].parent == parent
          invariant forall id | id in files :: id in shown || exists j :: 0 <= j < i && page[j].id == id
          invariant quiet ==> forall id | id in files :: id in objects && files[id] == objects[id]
        {
          var file := page[i];
          if file.id == "" {
            return false, map[];
          }
          if file.id in files || file.node.parent != parent {
            return false, map[];
          }
          files := files[file.id := file.node];
        }
        offset := offset + |page|;
        if offset == total {
          if quiet {
            FullInventory(files, Children(objects, parent));
          }
          log := log + [Listed(parent, files)];
          return true, files;
        }
      }
    }

    // A provider mkdir. It may report any ID at all, whether or not it made the folder.
    method Mkdir(parent: Id, name: string) returns (ok: bool, cid: Id, ghost made: Option<Id>)
      modifies this`objects, this`dirs, this`log
      ensures log == old(log) + [MkdirCall(parent, name, made)]
      ensures quiet ==> dirs == old(dirs)
      ensures quiet ==> MadeFolder(old(objects), objects, Node(parent, name, true), made)
    {
      Drift();
      var id: Id := *;
      var effect: bool := *;
      var empty := forall child | child in objects :: objects[child].parent != id;
      var created: Option<Id> := None;
      if id !in objects && id != "" && id != ROOT && id != parent && empty && effect {
        objects := objects[id := Node(parent, name, true)];
        created := Some(id);
      }
      made := created;
      cid := *;
      ok := *;
      log := log + [MkdirCall(parent, name, created)];
    }

    // createReplacementFolder: the returned ID is accepted only if a listing before did not show
    // it and a listing after shows it alone under the requested name.
    method CreateReplacementFolder(parent: Id, name: string) returns (ok: bool, cid: Id, ghost made: Option<Id>)
      modifies this`objects, this`dirs, this`log
      ensures ok ==> cid != ""
      ensures quiet ==> dirs == old(dirs)
      ensures quiet ==> Created(old(objects), objects, Node(parent, name, true), made)
      ensures quiet && ok ==> made == Some(cid)
      ensures old(log) <= log && Recorded(log[|old(log)|..], made)
    {
      made := None;
      var before, after: map<Id, Node>;
      ok, before := ReplacementFolders(parent);
      if !ok {
        return false, "", made;
      }
      if exists id | id in before :: before[id].name == name {
        return false, "", made;
      }
      assert quiet ==> forall id | id in objects && objects[id].parent == parent :: id in before;
      ok, cid, made := Mkdir(parent, name);
      ghost var k := |log| - 1 - |old(log)|;
      assert log[|old(log)|..][k].MkdirCall?;
      if !ok || cid in before {
        return false, "", made;
      }
      ok, after := ReplacementFolders(parent);
      assert log[|old(log)|..][k].MkdirCall?;
      if !ok || !FolderIs(after, cid, name) {
        return false, "", made;
      }
    }

    // Receives a share into a folder: any part of it may arrive.
    method Receive(cid: Id) returns (ok: bool, ghost added: set<Id>)
      modifies this`objects, this`dirs, this`log
      ensures log == old(log) + [ReceiveCall(cid)]
      ensures quiet ==> dirs == old(dirs)
      ensures quiet ==> Received(old(objects), objects, cid, added)
    {
      Drift();
      ghost var before := objects;
      var arrived: set<Id> := {};
      var parts: int := *;
      NothingReceived(objects, cid);
      for i := 0 to if parts < 0 then 0 else parts
        invariant log == old(log) && (quiet ==> dirs == old(dirs))
        invariant Received(before, objects, cid, arrived)
      {
        var id: Id, node: Node := *, *;
        var unknown := forall child | child in objects :: objects[child].parent != id;
        if id !in objects && id != "" && id != ROOT && id != cid && id != node.parent && unknown && (node.parent == cid || node.parent in arrived) {
          OneMoreReceived(before, objects, cid, arrived, id, node);
          objects, arrived := objects[id := node], arrived + {id};
        }
      }
      added := arrived;
      ok := *;
      log := log + [ReceiveCall(cid)];
    }

    method Move(id: Id, parent: Id) returns (ok: bool)
      modifies this`objects, this`dirs, this`log
      ensures log == old(log) + [MoveCall(id, parent)]
      ensures quiet ==> dirs == old(dirs)
      ensures quiet ==> objects == Moved(old(objects), id, parent) || (!ok && objects == old(objects))
      ensures reliable ==> ok
    {
      Drift();
      ok := reliable;
      if !reliable {
        ok := *;
      }
      var effect: bool := *;
      if ok || effect {
        objects := Moved(objects, id, parent);
      }
      log := log + [MoveCall(id, parent)];
    }

    method Rename(id: Id, name: string) returns (ok: bool)
      modifies this`objects, this`dirs, this`log
      ensures log == old(log) + [RenameCall(id, name)]
      ensures quiet ==> dirs == old(dirs)
      ensures quiet ==> objects == Renamed(old(objects), id, name) || (!ok && objects == old(objects))
      ensures reliable ==> ok
    {
      Drift();
      ok := reliable;
      if !reliable {
        ok := *;
      }
      var effect: bool := *;
      if ok || effect {
        objects := Renamed(objects, id, name);
      }
      log := log + [RenameCall(id, name)];
    }

    // A deletion takes everything below the object along.
    method Delete(id: Id) returns (ok: bool, ghost carriedOut: bool)
      modifies this`objects, this`dirs, this`log
      ensures log == old(log) + [DeleteCall(id, carriedOut)]
      ensures quiet ==> dirs == old(dirs)
      ensures quiet ==> objects == if carriedOut then old(objects) - Subtree(old(objects), id) else old(objects)
      ensures ok ==> carriedOut
      ensures reliable ==> ok
    {
      Drift();
      ok := reliable;
      if !reliable {
        ok := *;
      }
      var effect: bool := *;
      effect := effect || ok;
      if effect {
        var gone := Below(id);
        objects := objects - gone;
      }
      carriedOut := effect;
      log := log + [DeleteCall(id, effect)];
    }

    method Below(root: Id) returns (ids: set<Id>)
      ensures ids == Subtree(objects, root)
    {
      SubtreeIsClosed(objects, root);
      ids := {root};
      while exists id | id in objects :: objects[id].parent in ids && id !in ids
        invariant root in ids && ids <= Subtree(objects, root)
        decreases Subtree(objects, root) - ids
      {
        var id :| id in objects && objects[id].parent in ids && id !in ids;
        ids := ids + {id};
      }
      assert Closed(objects, ids);
    }

    // os.Lstat.
    method Lstat(path: StrmPath) returns (r: Lookup)
      modifies this`objects, this`dirs, this`log
      ensures log == old(log)
      ensures quiet ==> objects == old(objects) && dirs == old(dirs)
      ensures quiet && r.Found? ==> At(dirs, path) == Some(r.tree)
      ensures quiet && r.Absent? ==> At(dirs, path) == None
      ensures reliable ==> !r.Unreadable?
    {
      Drift();
      var readable: bool := *;
      if !readable && !reliable {
        return Unreadable;
      }
      return if path in dirs then Found(dirs[path]) else Absent;
    }

    // os.Rename of a directory. It refuses a destination that exists.
    method RenameDir(from: StrmPath, to: StrmPath) returns (ok: bool)
      modifies this`objects, this`dirs, this`log
      ensures log == old(log)
      ensures quiet ==> objects == old(objects)
      ensures quiet ==> (!ok && dirs == old(dirs)) || RenamedDir(old(dirs), dirs, from, to)
      ensures quiet && reliable && At(old(dirs), from).Some? && At(old(dirs), to).None? ==> ok
    {
      Drift();
      ok := false;
      if from in dirs && to !in dirs {
        var effect: bool := *;
        if effect || reliable {
          dirs := (dirs - {from})[to := dirs[from]];
          ok := reliable;
          if !reliable {
            ok := *;
          }
        }
      }
    }

    // os.Mkdir: a new directory has an inode no listed directory has.
    method MkdirDir(path: StrmPath) returns (ok: bool)
      modifies this`objects, this`dirs, this`log
      ensures log == old(log)
      ensures quiet ==> objects == old(objects)
      ensures quiet ==> (!ok && dirs == old(dirs)) || MadeDir(old(dirs), dirs, path)
    {
      Drift();
      ok := false;
      var effect: bool := *;
      if path !in dirs && effect {
        var inode: int := *;
        if (forall p | p in dirs :: dirs[p].inode != inode) {
          dirs := dirs[path := Tree(inode, [], true)];
          ok := *;
        }
      }
    }

    // removeOwnedReplacementRoot: os.RemoveAll, only of a real directory with the recorded inode.
    method RemoveOwned(path: StrmPath, owned: Option<int>) returns (ok: bool)
      modifies this`objects, this`dirs, this`log
      ensures log == old(log)
      ensures quiet ==> objects == old(objects)
      ensures quiet ==> forall p | p != path :: At(dirs, p) == At(old(dirs), p)
      ensures quiet ==> At(dirs, path) == At(old(dirs), path) ||
                        (owned.Some? && Owns(At(old(dirs), path), owned.value) &&
                         (At(dirs, path).Some? ==> !ok && Owns(At(dirs, path), owned.value)))
      ensures quiet && ok && owned.Some? ==> At(dirs, path).None?
      ensures quiet && owned.None? ==> ok
      ensures quiet && reliable && (owned.Some? && At(old(dirs), path).Some? ==> Owns(At(old(dirs), path), owned.value)) ==> ok
    {
      if owned.None? {
        return true;
      }
      var current := Lstat(path);
      if current.Absent? {
        return true;
      }
      if current.Unreadable? {
        return false;
      }
      if !current.tree.isRealDir || owned.value != current.tree.inode {
        return false;
      }
      var partial: bool := *;
      if partial && !reliable && path in dirs {
        var left: seq<(string, string)> := *;
        dirs := dirs[path := dirs[path].(contents := left)];
        return false;
      }
      dirs := dirs - {path};
      ok := reliable;
      if !reliable {
        ok := *;
      }
    }

    // SyncSTRMWithProgress restricted to one folder: it may rewrite that tree, or make it.
    method SyncStrm(folder: string) returns (ok: bool)
      modifies this`objects, this`dirs, this`log
      ensures log == old(log)
      ensures quiet ==> objects == old(objects)
      ensures quiet ==> forall p | p != InLibrary(folder) :: At(dirs, p) == At(old(dirs), p)
      ensures quiet && At(old(dirs), InLibrary(folder)).Some? ==>
                At(dirs, InLibrary(folder)).Some? &&
                SameDir(At(dirs, InLibrary(folder)).value, At(old(dirs), InLibrary(folder)).value)
    {
      Drift();
      ok := *;
      var path := InLibrary(folder);
      var written: seq<(string, string)> := *;
      var inode: int := *;
      dirs := dirs[path := if path in dirs then dirs[path].(contents := written) else Tree(inode, written, true)];
    }

    // The synchronisation of a whole library: directories that are there stay, with whatever contents, and
    // others may be added.
    method SyncLibrary() returns (ok: bool)
      modifies this`objects, this`dirs, this`log
      ensures log == old(log)
      ensures quiet ==> objects == old(objects)
      ensures quiet ==> forall dir :: At(dirs, InBackup(dir)) == At(old(dirs), InBackup(dir))
      ensures quiet ==> forall folder :: StaysDir(At(old(dirs), InLibrary(folder)), At(dirs, InLibrary(folder)))
    {
      Drift();
      ok := *;
      var synced: map<StrmPath, Tree> := *;
      var written: map<StrmPath, seq<(string, string)>> := *;
      var added := set p | p in synced && p.InLibrary?;
      dirs := map p | p in dirs.Keys + added ::
        if p !in dirs then synced[p]
        else if p.InLibrary? && p in written then dirs[p].(contents := written[p])
        else dirs[p];
    }

    // os.MkdirTemp for the operation's backup directory: an unused name.
    method MkdirTemp() returns (ok: bool, dir: string)
      modifies this`objects, this`dirs, this`log
      ensures log == old(log)
      ensures quiet ==> objects == old(objects) && dirs == old(dirs)
      ensures quiet && ok ==> At(dirs, InBackup(dir)).None?
    {
      Drift();
      dir := *;
      ok := *;
      if InBackup(dir) in dirs {
        ok := false;
      }
    }

    // Any other provider, mount or settings step: it succeeds or fails and touches nothing modelled.
    method Attempt() returns (ok: bool)
      modifies this`objects, this`dirs, this`log
      ensures log == old(log)
      ensures quiet ==> objects == old(objects) && dirs == old(dirs)
    {
      Drift();
      ok := *;
    }
  }

  lemma NothingReceived(objects: map<Id, Node>, cid: Id)
    ensures Received(objects, objects, cid, {})
  {
    assert objects.Keys + {} == objects.Keys;
  }

  lemma OneMoreReceived(before: map<Id, Node>, objects: map<Id, Node>, cid: Id, added: set<Id>, id: Id, node: Node)
    requires Received(before, objects, cid, added) && id !in objects && id != "" && id != ROOT && id != cid && node.parent in added + {cid}
    requires forall child | child in objects :: objects[child].parent != id
    ensures Received(before, objects[id := node], cid, added + {id})
  {
    var more := objects[id := node];
    forall x | x in added + {id}
      ensures InEvery(more, cid, x)
    {
      forall ids: set<Id> {:trigger Closed(more, ids)} | cid in ids && Closed(more, ids)
        ensures x in ids
      {
        assert Closed(objects, ids) by {
          assert forall k | k in objects :: more[k] == objects[k];
        }
        assert added <= Subtree(objects, cid);
        assert forall y | y in added :: InEvery(objects, cid, y) && y in ids;
        assert more[id].parent in ids;
      }
    }
    assert more.Keys == before.Keys + (added + {id});
  }

  // A mkdir made one new empty folder, or none.
  ghost predicate MadeFolder(before: map<Id, Node>, after: map<Id, Node>, node: Node, made: Option<Id>) {
    match made
    case None => after == before
    case Some(id) =>
      && id !in before && id != "" && id != ROOT && id != node.parent
      && after == before[id := node]
      && forall child | child in before :: before[child].parent != id
  }

  // It has no sibling of its name.
  ghost predicate Created(before: map<Id, Node>, after: map<Id, Node>, node: Node, made: Option<Id>) {
    && MadeFolder(before, after, node, made)
    && (made.Some? ==> forall id | id in before && before[id].parent == node.parent :: before[id].name != node.name)
  }

  // Calls that made this folder, if any, and otherwise only listed.
  predicate Recorded(calls: seq<Call>, made: Option<Id>) {
    && (forall i | 0 <= i < |calls| :: calls[i].Listed? || (calls[i].MkdirCall? && calls[i].made == made))
    && (made.Some? ==> exists i | 0 <= i < |calls| :: calls[i].MkdirCall?)
  }

  ghost predicate RenamedDir(before: map<StrmPath, Tree>, after: map<StrmPath, Tree>, from: StrmPath, to: StrmPath) {
    && At(before, from).Some? && At(before, to).None?
    && At(after, from).None? && At(after, to) == At(before, from)
    && forall p | p != from && p != to :: At(after, p) == At(before, p)
  }

  ghost predicate MadeDir(before: map<StrmPath, Tree>, after: map<StrmPath, Tree>, path: StrmPath) {
    && At(before, path).None?
    && At(after, path).Some? && At(after, path).value.isRealDir
    && forall p | p != path :: At(after, p) == At(before, p)
  }
}
