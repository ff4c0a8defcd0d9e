// The completed-pack replacement: stage a new copy beside the original Series folder, move the
// original into quarantine, give the copy the canonical name, swap the STRM trees, rescan and
// restore user state; on any failure roll back, as often as it takes.
module Replacement {
  import opened Common
  import opened Cloud
  import R = ReplacementState

  /******* The trace of provider calls *******/

  datatype Names = Names(library: Id, original: Id, oldFolder: string, newFolder: string, staged: Id)

  predicate HasMove(log: seq<Call>) {
    exists i :: 0 <= i < |log| && log[i].MoveCall?
  }

  // The original is never renamed or deleted. Only the operation's own staging folder is, and a
  // deletion directly follows a listing that shows the staging folder under its staging name and,
  // once the original has been moved, the original in place.
  predicate CallSafe(prior: seq<Call>, call: Call, n: Names) {
    match call
    case Listed(_, _) => true
    case MkdirCall(_, _, _) => true
    case ReceiveCall(id) => id == n.staged
    case MoveCall(id, _) => id == n.original
    case RenameCall(id, _) => id == n.staged && id != n.original
    case DeleteCall(id, _) =>
      && id == n.staged && id != n.original
      && prior != []
      && var evidence := prior[|prior| - 1];
         && evidence.Listed? && evidence.parent == n.library
         && FolderIs(evidence.files, id, n.newFolder)
         && (HasMove(prior) ==> FolderIs(evidence.files, n.original, n.oldFolder))
  }

  predicate SafeAt(log: seq<Call>, i: int, n: Names)
    requires 0 <= i < |log|
  {
    CallSafe(log[..i], log[i], n)
  }

  ghost predicate TraceSafe(log: seq<Call>, n: Names) {
    forall i {:trigger SafeAt(log, i, n)} | 0 <= i < |log| :: SafeAt(log, i, n)
  }

  lemma TraceAppend(log: seq<Call>, call: Call, n: Names)
    requires TraceSafe(log, n) && CallSafe(log, call, n)
    ensures TraceSafe(log + [call], n)
    ensures HasMove(log + [call]) <==> HasMove(log) || call.MoveCall?
  {
    var all := log + [call];
    forall i | 0 <= i < |all|
      ensures SafeAt(all, i, n)
    {
      if i < |log| {
        assert SafeAt(log, i, n);
        assert all[..i] == log[..i];
      } else {
        assert all[..i] == log;
      }
    }
    if call.MoveCall? {
      assert all[|log|].MoveCall?;
    }
    if HasMove(log) {
      var i :| 0 <= i < |log| && log[i].MoveCall?;
      assert all[i].MoveCall?;
    }
  }

  lemma TraceExtend(log: seq<Call>, more: seq<Call>, n: Names)
    requires TraceSafe(log, n) && forall c | c in more :: c.Listed? || c.MkdirCall?
    ensures TraceSafe(log + more, n)
    ensures HasMove(log + more) <==> HasMove(log)
  {
    if more == [] {
      assert log + more == log;
    } else {
      var front, last := more[..|more| - 1], more[|more| - 1];
      assert last in more;
      TraceExtend(log, front, n);
      TraceAppend(log + front, last, n);
      assert log + more == (log + front) + [last];
    }
  }

  // What a safe trace says about each call at its place in the whole trace.
  lemma TraceMeaning(log: seq<Call>, n: Names, i: nat)
    requires TraceSafe(log, n) && i < |log|
    ensures log[i].RenameCall? ==> log[i].id == n.staged != n.original
    ensures log[i].ReceiveCall? ==> log[i].id == n.staged
    ensures log[i].MoveCall? ==> log[i].id == n.original
    ensures log[i].DeleteCall? ==>
              && log[i].id == n.staged != n.original
              && i > 0 && log[i - 1].Listed? && log[i - 1].parent == n.library
              && FolderIs(log[i - 1].files, n.staged, n.newFolder)
              && ((exists j :: 0 <= j < i && log[j].MoveCall?) ==> FolderIs(log[i - 1].files, n.original, n.oldFolder))
  {
    assert SafeAt(log, i, n);
    if j :| 0 <= j < i && log[j].MoveCall? {
      assert log[..i][j].MoveCall?;
    }
  }

  /******* The operation *******/

  // The parts of an operation's state that its invariants are about.
  datatype View = View(
    names: Names, received: set<Id>, newCid: Id, quarantine: Id, backupDir: string, newStrmInode: Option<int>,
    canonicalStrmInode: Option<int>, original: Option<Tree>, cutover: bool, finalized: bool)

  // Below the staging folder is nothing but what was received into it.
  predicate BelowStaging(v: View, objects: map<Id, Node>) {
    var n := v.names;
    if n.staged == "" then v.received == {}
    else
      && Closed(objects, {n.staged} + v.received)
      && n.original !in v.received && n.library !in {n.staged} + v.received && n.staged !in v.received
      && ROOT !in {n.staged} + v.received
      && (n.staged in objects ==> v.received <= objects.Keys)
  }

  // Where the original and the staging folder are. At most one of them is under the library with
  // the canonical name, and nothing else ever is.
  predicate CloudSound(v: View, objects: map<Id, Node>) {
    var n := v.names;
    && "" !in objects
    && n.original in objects && objects[n.original].isFolder && objects[n.original].name == n.oldFolder
    && n.staged != n.original
    && (n.staged in objects ==>
          && objects[n.staged].isFolder && objects[n.staged].parent == n.library
          && (objects[n.staged].name == n.oldFolder || objects[n.staged].name == n.newFolder))
    && (v.newCid == "" ==> n.staged !in objects)
    && (forall id | id in objects && objects[id].parent == n.library && objects[id].name == n.oldFolder ::
          id == n.original || id == n.staged)
    && (n.staged in objects && objects[n.staged].name == n.oldFolder ==> objects[n.original].parent != n.library)
    && (n.staged != "" ==>
          forall id | id in objects && objects[id].parent == n.library && objects[id].name == n.newFolder :: id == n.staged)
    && BelowStaging(v, objects)
    && (if !v.cutover then
          && objects[n.original].parent == n.library
          && (n.staged in objects ==> objects[n.staged].name == n.newFolder)
        else
          && v.quarantine != n.library && v.quarantine != n.staged && v.quarantine !in v.received
          && (forall id | id in objects && objects[id].parent == v.quarantine :: id == n.original)
          && (objects[n.original].parent == n.library || objects[n.original].parent == v.quarantine)
          && (n.staged !in objects ==> objects[n.original].parent == n.library))
    && (v.finalized ==> objects[n.original].parent == v.quarantine && n.staged in objects && objects[n.staged].name == n.oldFolder)
  }

  // The original STRM tree is at its canonical path or in the backup.
  predicate StrmSound(v: View, dirs: map<StrmPath, Tree>) {
    var canonical, staging, backup := InLibrary(v.names.oldFolder), InLibrary(v.names.newFolder), InBackup(v.backupDir);
    && (v.newStrmInode.Some? && At(dirs, staging).Some? ==> Owns(At(dirs, staging), v.newStrmInode.value))
    && (if !v.cutover then
          At(dirs, canonical) == v.original
        else
          && v.original.Some?
          && (At(dirs, backup).Some? ==> At(dirs, backup) == v.original)
          && (At(dirs, backup).None? ==> At(dirs, canonical) == v.original)
          && (At(dirs, backup).Some? && At(dirs, canonical).Some? && v.canonicalStrmInode.Some? ==>
                Owns(At(dirs, canonical), v.canonicalStrmInode.value)))
    && (v.finalized ==> At(dirs, backup).Some?)
  }

  // No step puts two folders with the canonical name into the library.
  lemma OneCanonicalName(v: View, objects: map<Id, Node>, a: Id, b: Id)
    requires CloudSound(v, objects) && a in objects && b in objects
    requires objects[a].parent == objects[b].parent == v.names.library && objects[a].name == objects[b].name == v.names.oldFolder
    ensures a == b
  {
  }

  lemma StagingRenamedBack(v: View, objects: map<Id, Node>)
    requires CloudSound(v, objects) && v.cutover && !v.finalized && v.names.staged in objects
    ensures CloudSound(v, Renamed(objects, v.names.staged, v.names.newFolder))
  {
  }

  lemma OriginalMovedBack(v: View, objects: map<Id, Node>)
    requires CloudSound(v, objects) && v.cutover && !v.finalized
    requires v.names.staged in objects ==> objects[v.names.staged].name == v.names.newFolder != v.names.oldFolder
    ensures CloudSound(v, Moved(objects, v.names.original, v.names.library))
  {
  }

  lemma StagingDeleted(v: View, objects: map<Id, Node>)
    requires CloudSound(v, objects) && !v.finalized && objects[v.names.original].parent == v.names.library && v.names.staged != ""
    ensures v.names.original !in Subtree(objects, v.names.staged)
    ensures var after := objects - Subtree(objects, v.names.staged); CloudSound(v, after) && CloudSound(v.(newCid := ""), after)
  {
    SubtreeIsClosed(objects, v.names.staged);
    assert Subtree(objects, v.names.staged) <= {v.names.staged} + v.received;
  }

  datatype Refusal =
    | AliasesOriginal
    | OriginalUncertain
    | StagingMoved
    | OriginalNotRestored
    | StagingChanged

  datatype RollbackResult = RolledBack | NothingToDo | Refused(reason: Refusal) | CallFailed | EmbyFailed(mismatch: bool)

  // A mismatch is user state that did not read back as it was written.
  datatype FinalizeResult = Replaced(newId: Id) | Failed(mismatch: bool, rollback: RollbackResult)

  class CompletedPackReplacement {
    const libraryCid: Id
    const oldSeriesId: Id
    const oldFolder: string
    const oldCid: Id
    const oldPath: seq<string>
    const newFolder: string
    const tmdb: string
    var expected: set<R.EpisodeNumber>
    var newCid: Id
    var newStrmInode: Option<int>
    var canonicalStrmInode: Option<int>
    var backupDir: string
    var quarantineCid: Id
    var states: seq<R.UserState>
    var destinationStates: seq<R.UserState>
    var cutoverStarted: bool
    var finalized: bool
    var rolledBack: bool
    var rollbackScanned: bool
    // The staging folder's ID, kept after `newCid` is cleared.
    ghost var staged: Id
    // What was received into it.
    ghost var received: set<Id>
    // The canonical STRM tree as the operation found it.
    ghost var original: Option<Tree>

    constructor (libraryCid: Id, oldSeriesId: Id, oldFolder: string, oldCid: Id, oldPath: seq<string>,
                 newFolder: string, tmdb: string, expected: set<R.EpisodeNumber>, newStrmInode: int,
                 ghost original: Option<Tree>)
      ensures this.libraryCid == libraryCid && this.oldSeriesId == oldSeriesId && this.oldFolder == oldFolder
      ensures this.oldCid == oldCid && this.oldPath == oldPath && this.newFolder == newFolder && this.tmdb == tmdb
      ensures this.expected == expected && this.newStrmInode == Some(newStrmInode) && this.original == original
      ensures newCid == "" && staged == "" && received == {} && backupDir == "" && quarantineCid == "" && canonicalStrmInode == None
      ensures states == [] && destinationStates == []
      ensures !cutoverStarted && !finalized && !rolledBack && !rollbackScanned
    {
      this.libraryCid, this.oldSeriesId, this.oldFolder, this.oldCid := libraryCid, oldSeriesId, oldFolder, oldCid;
      this.oldPath, this.newFolder, this.tmdb, this.expected := oldPath, newFolder, tmdb, expected;
      this.newStrmInode, this.canonicalStrmInode, this.original := Some(newStrmInode), None, original;
      newCid, backupDir, quarantineCid, staged, received := "", "", "", "", {};
      states, destinationStates := [], [];
      cutoverStarted, finalized, rolledBack, rollbackScanned := false, false, false, false;
    }

    ghost function InPlay(): Names
      reads this
    {
      Names(libraryCid, oldCid, oldFolder, newFolder, staged)
    }

    function Canonical(): StrmPath {
      InLibrary(oldFolder)
    }

    function Staging(): StrmPath {
      InLibrary(newFolder)
    }

    function Backup(): StrmPath
      reads this
    {
      InBackup(backupDir)
    }

    ghost predicate Shape()
      reads this
    {
      && oldCid != "" && oldFolder != newFolder && oldPath != [] && newStrmInode.Some?
      && (newCid == "" || newCid == staged)
      && (rolledBack ==> newCid == "" && !cutoverStarted && !finalized)
      && (finalized ==> cutoverStarted) && (rollbackScanned ==> rolledBack)
      && (!cutoverStarted && !rolledBack ==> canonicalStrmInode.None?)
    }

    ghost function Now(): View
      reads this
    {
      View(InPlay(), received, newCid, quarantineCid, backupDir, newStrmInode, canonicalStrmInode, original, cutoverStarted, finalized)
    }

    ghost predicate Sound(site: Site)
      reads this, site
    {
      && Shape()
      && TraceSafe(site.log, InPlay())
      && (HasMove(site.log) ==> cutoverStarted || (rolledBack && rollbackScanned))
      && (site.quiet ==> CloudSound(Now(), site.objects) && StrmSound(Now(), site.dirs))
    }
  }

  /******* Rollback *******/

  // The original is where it was, under its own name, alone; the staging copy is gone.
  ghost predicate Undone(r: CompletedPackReplacement, site: Site)
    reads r, site
  {
    && site.quiet ==>
         && r.oldCid in site.objects && site.objects[r.oldCid] == Node(r.libraryCid, r.oldFolder, true)
         && r.staged !in site.objects
         && At(site.dirs, r.Canonical()) == r.original
  }

  // Nobody knows that the directory now at the canonical path is the operation's own.
  ghost predicate StrmBlocked(r: CompletedPackReplacement, dirs: map<StrmPath, Tree>)
    reads r
  {
    At(dirs, r.Backup()).Some? && At(dirs, r.Canonical()).Some? && r.canonicalStrmInode.None?
  }

  // Reliable calls cannot finish the rollback from here.
  ghost predicate Stuck(r: CompletedPackReplacement, site: Site)
    reads r, site
  {
    r.cutoverStarted && ((r.newCid != "" && r.newCid !in site.objects) || StrmBlocked(r, site.dirs))
  }

  predicate Certain(site: Site)
    reads site
  {
    site.quiet && site.reliable && |site.objects| <= MAX_INT64
  }

  // Put the names, the original folder and the STRM tree back.
  method RestoreRoots(r: CompletedPackReplacement, site: Site) returns (result: RollbackResult)
    requires r.Sound(site) && r.cutoverStarted && !r.finalized && (r.newCid == "" || r.newCid != r.oldCid)
    modifies r`canonicalStrmInode, site`objects, site`dirs, site`log
    ensures r.Sound(site) && !result.NothingToDo? && !result.EmbyFailed?
    ensures result.RolledBack? && site.quiet ==> RootsRestored(r, site.objects)
    ensures result.RolledBack? && site.quiet ==> At(site.dirs, r.Backup()).None?
    ensures old(Certain(site)) ==> (result.RolledBack? <==> !old(Stuck(r, site))) && Certain(site)
  {
    result := RestoreFolders(r, site);
    if !result.RolledBack? {
      return;
    }
    result := RestoreStrm(r, site);
  }

  method RestoreFolders(r: CompletedPackReplacement, site: Site) returns (result: RollbackResult)
    requires r.Sound(site) && r.cutoverStarted && !r.finalized && (r.newCid == "" || r.newCid != r.oldCid)
    modifies site`objects, site`dirs, site`log
    ensures r.Sound(site) && !result.NothingToDo? && !result.EmbyFailed?
    ensures site.quiet ==> site.dirs == old(site.dirs)
    ensures result.RolledBack? && site.quiet ==> RootsRestored(r, site.objects)
    ensures old(Certain(site)) ==> Certain(site) && (result.RolledBack? <==> r.newCid == "" || r.newCid in old(site.objects))
  {
    var library, quarantine;
    result, library, quarantine := RecoveryInventories(r, site);
    if !result.RolledBack? {
      return;
    }
    result := RestoreStagingName(r, site, library);
    if !result.RolledBack? {
      return;
    }
    result := RestoreOriginal(r, site, quarantine);
  }

  ghost predicate RootsRestored(r: CompletedPackReplacement, objects: map<Id, Node>)
    reads r
  {
    && r.oldCid in objects && objects[r.oldCid].parent == r.libraryCid
    && (r.newCid != "" ==> r.newCid in objects && objects[r.newCid].name == r.newFolder)
  }

  // A fresh listing tells the truth about where the original is.
  lemma OriginalIsListed(v: View, objects: map<Id, Node>)
    requires CloudSound(v, objects) && v.cutover
    ensures FolderIs(Children(objects, v.names.library), v.names.original, v.names.oldFolder) <==> objects[v.names.original].parent == v.names.library
    ensures FolderIs(Children(objects, v.quarantine), v.names.original, v.names.oldFolder) <==> objects[v.names.original].parent == v.quarantine
  {
  }

  method ListLibrary(r: CompletedPackReplacement, site: Site) returns (ok: bool, files: map<Id, Node>)
    requires r.Sound(site)
    modifies site`objects, site`dirs, site`log
    ensures r.Sound(site) && "" !in files
    ensures site.log == if ok then old(site.log) + [Listed(r.libraryCid, files)] else old(site.log)
    ensures HasMove(site.log) <==> HasMove(old(site.log))
    ensures site.quiet ==> site.objects == old(site.objects) && site.dirs == old(site.dirs)
    ensures site.quiet && ok ==> files == Children(site.objects, r.libraryCid)
    ensures old(Certain(site)) ==> ok && Certain(site)
  {
    ok, files := site.ReplacementFolders(r.libraryCid);
    if ok {
      TraceAppend(old(site.log), Listed(r.libraryCid, files), r.InPlay());
    } else {
      files := map[];
    }
  }

  method RecoveryInventories(r: CompletedPackReplacement, site: Site)
    returns (result: RollbackResult, library: map<Id, Node>, quarantine: map<Id, Node>)
    requires r.Sound(site) && r.cutoverStarted && !r.finalized
    modifies site`objects, site`dirs, site`log
    ensures r.Sound(site) && !result.NothingToDo? && !result.EmbyFailed?
    ensures "" !in library
    ensures site.quiet ==> site.objects == old(site.objects) && site.dirs == old(site.dirs)
    ensures result.RolledBack? && site.quiet ==>
              && library == Children(site.objects, r.libraryCid)
              && (FolderIs(quarantine, r.oldCid, r.oldFolder) <==> site.objects[r.oldCid].parent == r.quarantineCid)
    ensures old(Certain(site)) ==> Certain(site) && result.RolledBack?
  {
    library, quarantine := map[], map[];
    var ok;
    ok, library := ListLibrary(r, site);
    if !ok {
      return CallFailed, map[], map[];
    }
    ghost var log1 := site.log;
    ok, quarantine := site.ReplacementFolders(r.quarantineCid);
    if !ok {
      return CallFailed, map[], map[];
    }
    TraceAppend(log1, Listed(r.quarantineCid, quarantine), r.InPlay());
    if site.quiet {
      OriginalIsListed(r.Now(), site.objects);
    }
    if !FolderIs(library, r.oldCid, r.oldFolder) && !FolderIs(quarantine, r.oldCid, r.oldFolder) {
      return Refused(OriginalUncertain), library, quarantine;
    }
    return RolledBack, library, quarantine;
  }

  method RestoreStagingName(r: CompletedPackReplacement, site: Site, library: map<Id, Node>) returns (result: RollbackResult)
    requires r.Sound(site) && r.cutoverStarted && !r.finalized && (r.newCid == "" || r.newCid != r.oldCid)
    requires "" !in library && (site.quiet ==> library == Children(site.objects, r.libraryCid))
    modifies site`objects, site`dirs, site`log
    ensures r.Sound(site) && !result.NothingToDo? && !result.EmbyFailed?
    ensures site.quiet ==> site.dirs == old(site.dirs) && site.objects.Keys == old(site.objects).Keys
    ensures site.quiet ==> site.objects[r.oldCid] == old(site.objects)[r.oldCid]
    ensures result.RolledBack? && site.quiet && r.newCid != "" ==>
              r.newCid in site.objects && site.objects[r.newCid].name == r.newFolder
    ensures old(Certain(site)) ==> Certain(site) && (result.RolledBack? <==> r.newCid == "" || r.newCid in site.objects)
  {
    if FolderIs(library, r.newCid, r.oldFolder) {
      if site.quiet {
        StagingRenamedBack(r.Now(), site.objects);
      }
      var ok := site.Rename(r.newCid, r.newFolder);
      TraceAppend(old(site.log), RenameCall(r.newCid, r.newFolder), r.InPlay());
      return if ok then RolledBack else CallFailed;
    } else if r.newCid != "" && !FolderIs(library, r.newCid, r.newFolder) {
      return Refused(StagingMoved);
    }
    return RolledBack;
  }

  method RestoreOriginal(r: CompletedPackReplacement, site: Site, quarantine: map<Id, Node>) returns (result: RollbackResult)
    requires r.Sound(site) && r.cutoverStarted && !r.finalized
    requires site.quiet ==> (FolderIs(quarantine, r.oldCid, r.oldFolder) <==> site.objects[r.oldCid].parent == r.quarantineCid)
    requires site.quiet && r.newCid != "" ==> r.newCid in site.objects && site.objects[r.newCid].name == r.newFolder
    modifies site`objects, site`dirs, site`log
    ensures r.Sound(site) && !result.NothingToDo? && !result.EmbyFailed?
    ensures site.quiet ==> site.dirs == old(site.dirs) && site.objects.Keys == old(site.objects).Keys
    ensures result.RolledBack? && site.quiet ==> RootsRestored(r, site.objects)
    ensures old(Certain(site)) ==> Certain(site) && result.RolledBack?
  {
    if FolderIs(quarantine, r.oldCid, r.oldFolder) {
      if site.quiet {
        OriginalMovedBack(r.Now(), site.objects);
      }
      var ok := site.Move(r.oldCid, r.libraryCid);
      TraceAppend(old(site.log), MoveCall(r.oldCid, r.libraryCid), r.InPlay());
      return if ok then RolledBack else CallFailed;
    }
    return RolledBack;
  }

  method RestoreStrm(r: CompletedPackReplacement, site: Site) returns (result: RollbackResult)
    requires r.Sound(site) && r.cutoverStarted && !r.finalized
    modifies r`canonicalStrmInode, site`objects, site`dirs, site`log
    ensures r.Sound(site) && site.log == old(site.log)
    ensures site.quiet ==> site.objects == old(site.objects)
    ensures result.RolledBack? || result.CallFailed?
    ensures result.RolledBack? && site.quiet ==> At(site.dirs, r.Backup()).None?
    ensures site.quiet && site.reliable ==> (result.RolledBack? <==> !old(StrmBlocked(r, site.dirs)))
  {
    var backup := site.Lstat(r.Backup());
    match backup
    case Absent =>
      return RolledBack;
    case Unreadable =>
      return CallFailed;
    case Found(_) =>
      var ok := site.RemoveOwned(r.Canonical(), r.canonicalStrmInode);
      if !ok {
        return CallFailed;
      }
      ok := site.RenameDir(r.Backup(), r.Canonical());
      if !ok {
        return CallFailed;
      }
      r.canonicalStrmInode := None;
      return RolledBack;
  }

  // No other STRM directory changed.
  ghost predicate OnlyAt(path: StrmPath, before: map<StrmPath, Tree>, after: map<StrmPath, Tree>) {
    forall p | p != path :: At(after, p) == At(before, p)
  }

  // The calls only listed and deleted the staging folder; a deletion that was carried out took everything below along.
  ghost predicate OnlyStagingGone(staged: Id, before: map<Id, Node>, after: map<Id, Node>, calls: seq<Call>) {
    && (forall i | 0 <= i < |calls| :: calls[i].Listed? || (calls[i].DeleteCall? && calls[i].id == staged != ""))
    && after == if DeleteCall(staged, true) in calls then before - Subtree(before, staged) else before
  }

  // Delete the staging folder, if a fresh listing shows it unchanged and the original in place.
  method DeleteStaging(r: CompletedPackReplacement, site: Site) returns (result: RollbackResult)
    requires r.Sound(site) && !r.finalized && !r.rolledBack && (r.newCid == "" || r.newCid != r.oldCid)
    requires site.quiet && r.cutoverStarted ==> RootsRestored(r, site.objects)
    modifies r`newCid, site`objects, site`dirs, site`log
    ensures r.Sound(site) && !result.NothingToDo? && !result.EmbyFailed?
    ensures site.quiet ==> site.dirs == old(site.dirs)
    ensures site.quiet ==> site.objects[r.oldCid] == old(site.objects)[r.oldCid]
    ensures old(site.log) <= site.log
    ensures site.quiet ==> OnlyStagingGone(r.staged, old(site.objects), site.objects, site.log[|old(site.log)|..])
    ensures result.RolledBack? ==> r.newCid == ""
    ensures old(Certain(site)) ==> result.RolledBack?
  {
    if r.newCid == "" {
      return RolledBack;
    }
    var ok, files := ListLibrary(r, site);
    if !ok {
      return CallFailed;
    }
    assert site.log[|old(site.log)|..] == [Listed(r.libraryCid, files)];
    if r.cutoverStarted && !FolderIs(files, r.oldCid, r.oldFolder) {
      return Refused(OriginalNotRestored);
    }
    if r.newCid !in files {
      ForgetStaging(r, site);
      return RolledBack;
    }
    if !FolderIs(files, r.newCid, r.newFolder) {
      return Refused(StagingChanged);
    }
    ghost var before, listed := site.objects, site.log;
    result := DeleteListed(r, site);
    if site.quiet {
      ListedToo(r.staged, before, site.objects, Listed(r.libraryCid, files), site.log[|listed|..]);
    }
    assert site.log[|old(site.log)|..] == [Listed(r.libraryCid, files)] + site.log[|listed|..];
  }

  method ForgetStaging(r: CompletedPackReplacement, site: Site)
    requires r.Sound(site) && !r.finalized && (site.quiet ==> r.staged !in site.objects)
    modifies r`newCid
    ensures r.Sound(site) && r.newCid == ""
  {
    r.newCid := "";
  }

  lemma ListedToo(staged: Id, before: map<Id, Node>, after: map<Id, Node>, listed: Call, calls: seq<Call>)
    requires listed.Listed? && OnlyStagingGone(staged, before, after, calls)
    ensures OnlyStagingGone(staged, before, after, [listed] + calls)
  {
    forall i | 0 <= i < |[listed] + calls|
      ensures ([listed] + calls)[i].Listed? || (([listed] + calls)[i].DeleteCall? && ([listed] + calls)[i].id == staged != "")
    {
      assert i > 0 ==> ([listed] + calls)[i] == calls[i - 1];
    }
  }

  lemma DeletionKeeps(v: View, before: map<Id, Node>, after: map<Id, Node>, carriedOut: bool)
    requires CloudSound(v, before) && !v.finalized && before[v.names.original].parent == v.names.library && v.names.staged != ""
    requires after == if carriedOut then before - Subtree(before, v.names.staged) else before
    ensures CloudSound(v, after) && (carriedOut ==> CloudSound(v.(newCid := ""), after))
    ensures after[v.names.original] == before[v.names.original]
    ensures OnlyStagingGone(v.names.staged, before, after, [DeleteCall(v.names.staged, carriedOut)])
  {
    if carriedOut {
      StagingDeleted(v, before);
    }
  }

  method DeleteListed(r: CompletedPackReplacement, site: Site) returns (result: RollbackResult)
    requires r.Sound(site) && !r.finalized && !r.rolledBack && r.newCid != "" && r.newCid != r.oldCid
    requires site.quiet ==> site.objects[r.oldCid].parent == r.libraryCid
    requires site.log != [] && CallSafe(site.log, DeleteCall(r.newCid, true), r.InPlay())
    modifies r`newCid, site`objects, site`dirs, site`log
    ensures r.Sound(site) && (result.RolledBack? || result.CallFailed?)
    ensures site.quiet ==> site.dirs == old(site.dirs) && site.objects[r.oldCid] == old(site.objects)[r.oldCid]
    ensures |site.log| == |old(site.log)| + 1 && old(site.log) <= site.log
    ensures site.quiet ==> OnlyStagingGone(r.staged, old(site.objects), site.objects, site.log[|old(site.log)|..])
    ensures result.RolledBack? ==> r.newCid == ""
    ensures old(Certain(site)) ==> result.RolledBack?
  {
    ghost var before := site.objects;
    var ok;
    ghost var carriedOut;
    ok, carriedOut := site.Delete(r.newCid);
    if site.quiet {
      DeletionKeeps(r.Now(), before, site.objects, carriedOut);
    }
    TraceAppend(old(site.log), DeleteCall(r.newCid, carriedOut), r.InPlay());
    assert site.log[|old(site.log)|..] == [DeleteCall(r.newCid, carriedOut)];
    if !ok {
      return CallFailed;
    }
    ForgetStaging(r, site);
    return RolledBack;
  }

  // The canonical Series is known to Emby again and every snapshotted state reads back equal.
  ghost predicate UserStateRestored(path: seq<string>, tmdb: string, states: seq<R.UserState>, emby: R.Emby)
    reads emby
  {
    exists i :: 0 <= i < |emby.series| && RestoredUnder(path, tmdb, states, emby, emby.series[i])
  }

  ghost predicate RestoredUnder(path: seq<string>, tmdb: string, states: seq<R.UserState>, emby: R.Emby, row: R.SeriesRow)
    reads emby
  {
    && row.path == path && row.tmdb == tmdb
    && row.id in emby.catalog
    && R.Holds(emby.data, states, R.ItemsOf(emby.catalog[row.id], row.id))
  }

  // rollbackCompletedPack. It may be called again after a failure, and after success does nothing.
  method RollbackCompletedPack(r: CompletedPackReplacement, site: Site, emby: R.Emby) returns (result: RollbackResult)
    requires r.Sound(site)
    modifies r`newCid, r`canonicalStrmInode, r`cutoverStarted, r`rolledBack, r`rollbackScanned
    modifies site`objects, site`dirs, site`log, emby
    ensures r.Sound(site)
    ensures result.NothingToDo? <==> old(r.finalized || r.rolledBack)
    ensures result.NothingToDo? ==> unchanged(r) && unchanged(site) && unchanged(emby)
    ensures result.RolledBack? ==> r.rolledBack
    ensures result.RolledBack? && old(r.cutoverStarted) ==> r.rollbackScanned && UserStateRestored(r.oldPath, r.tmdb, r.states, emby)
    ensures result.RolledBack? && !old(r.cutoverStarted) ==> r.rollbackScanned == old(r.rollbackScanned)
    ensures result.EmbyFailed? ==> old(r.cutoverStarted)
    ensures emby.faithful && emby.orderly && R.Consistent(r.states) ==> result != EmbyFailed(true)
    ensures !old(r.cutoverStarted) ==> !r.cutoverStarted && old(site.log) <= site.log
    ensures site.quiet && !old(r.cutoverStarted) ==>
              OnlyStagingGone(r.staged, old(site.objects), site.objects, site.log[|old(site.log)|..]) && OnlyAt(r.Staging(), old(site.dirs), site.dirs)
    ensures !result.RolledBack? && !result.NothingToDo? ==>
              r.rolledBack == old(r.rolledBack) && r.cutoverStarted == old(r.cutoverStarted) && r.rollbackScanned == old(r.rollbackScanned)
    ensures old(Certain(site)) && !result.NothingToDo? && (old(r.newCid) == "" || old(r.newCid) != r.oldCid) ==>
              (result.RolledBack? || (result.EmbyFailed? && old(r.cutoverStarted)) <==> !old(Stuck(r, site)))
  {
    if r.finalized || r.rolledBack {
      return NothingToDo;
    }
    if r.newCid != "" && r.newCid == r.oldCid {
      return Refused(AliasesOriginal);
    }
    result := UndoStorage(r, site);
    if result.RolledBack? {
      result := ConcludeRollback(r, site, emby);
    }
  }

  // Once storage is undone, Emby learns of it, if a cutover had begun.
  method ConcludeRollback(r: CompletedPackReplacement, site: Site, emby: R.Emby) returns (result: RollbackResult)
    requires r.Sound(site) && !r.finalized && !r.rolledBack && r.newCid == "" && Undone(r, site)
    modifies r`cutoverStarted, r`rolledBack, r`rollbackScanned, emby
    ensures r.Sound(site)
    ensures result.RolledBack? || (result.EmbyFailed? && old(r.cutoverStarted))
    ensures result.RolledBack? ==> r.rolledBack && r.rollbackScanned == (old(r.cutoverStarted) || old(r.rollbackScanned))
    ensures result.RolledBack? && old(r.cutoverStarted) ==> UserStateRestored(r.oldPath, r.tmdb, r.states, emby)
    ensures emby.faithful && emby.orderly && R.Consistent(r.states) ==> result != EmbyFailed(true)
    ensures !result.RolledBack? ==>
              r.rolledBack == old(r.rolledBack) && r.cutoverStarted == old(r.cutoverStarted) && r.rollbackScanned == old(r.rollbackScanned)
  {
    if !r.cutoverStarted {
      r.rolledBack := true;
      return RolledBack;
    }
    result := RestoreUserState(r, emby);
    if result.RolledBack? {
      r.cutoverStarted := false;
      r.rolledBack := true;
      r.rollbackScanned := true;
    }
  }

  // The cloud and STRM part of a rollback.
  method UndoStorage(r: CompletedPackReplacement, site: Site) returns (result: RollbackResult)
    requires r.Sound(site) && !r.finalized && !r.rolledBack && (r.newCid == "" || r.newCid != r.oldCid)
    modifies r`newCid, r`canonicalStrmInode, site`objects, site`dirs, site`log
    ensures r.Sound(site) && !result.NothingToDo? && !result.EmbyFailed?
    ensures result.RolledBack? ==> r.newCid == "" && Undone(r, site)
    ensures !r.cutoverStarted ==> old(site.log) <= site.log
    ensures site.quiet && !r.cutoverStarted ==> OnlyStagingGone(r.staged, old(site.objects), site.objects, site.log[|old(site.log)|..])
    ensures site.quiet && !r.cutoverStarted ==> OnlyAt(r.Staging(), old(site.dirs), site.dirs)
    ensures old(Certain(site)) ==> (result.RolledBack? <==> !old(Stuck(r, site)))
  {
    if r.cutoverStarted {
      result := RestoreRoots(r, site);
      if !result.RolledBack? {
        return;
      }
    }
    result := DropStaging(r, site);
  }

  method DropStaging(r: CompletedPackReplacement, site: Site) returns (result: RollbackResult)
    requires r.Sound(site) && !r.finalized && !r.rolledBack && (r.newCid == "" || r.newCid != r.oldCid)
    requires site.quiet && r.cutoverStarted ==> RootsRestored(r, site.objects) && At(site.dirs, r.Backup()).None?
    modifies r`newCid, site`objects, site`dirs, site`log
    ensures r.Sound(site) && !result.NothingToDo? && !result.EmbyFailed?
    ensures result.RolledBack? ==> r.newCid == "" && Undone(r, site)
    ensures old(site.log) <= site.log
    ensures site.quiet ==> OnlyStagingGone(r.staged, old(site.objects), site.objects, site.log[|old(site.log)|..])
    ensures site.quiet ==> OnlyAt(r.Staging(), old(site.dirs), site.dirs)
    ensures old(Certain(site)) ==> result.RolledBack?
  {
    result := DeleteStaging(r, site);
    if !result.RolledBack? {
      return;
    }
    var ok := site.RemoveOwned(r.Staging(), r.newStrmInode);
    return if ok then RolledBack else CallFailed;
  }

  method RestoreUserState(r: CompletedPackReplacement, emby: R.Emby) returns (result: RollbackResult)
    modifies emby
    ensures result.RolledBack? || result.EmbyFailed?
    ensures result.RolledBack? ==> UserStateRestored(r.oldPath, r.tmdb, r.states, emby)
    ensures emby.faithful && emby.orderly && R.Consistent(r.states) ==> result != EmbyFailed(true)
  {
    var ok := emby.RunLibraryScan();
    if !ok {
      return EmbyFailed(false);
    }
    ok := emby.Attempt();
    if !ok {
      return EmbyFailed(false);
    }
    var inventory := emby.series;
    for i := 0 to |inventory|
      invariant emby.series == inventory && (emby.orderly ==> R.Orderly(emby.catalog, emby.below))
    {
      if inventory[i].path == r.oldPath && inventory[i].tmdb == r.tmdb {
        var items, episodes;
        ok, items, episodes := emby.ReplacementItems(inventory[i].id, inventory[i].path);
        if !ok {
          return EmbyFailed(false);
        }
        var restored := emby.Restore(r.states, items);
        if !restored.Restored? {
          return EmbyFailed(restored.Mismatch?);
        }
        assert RestoredUnder(r.oldPath, r.tmdb, r.states, emby, emby.series[i]);
        return RolledBack;
      }
    }
    return EmbyFailed(false);
  }

  // What a completed rollback leaves, whether or not a cutover had begun.
  lemma RolledBackMeansUndone(r: CompletedPackReplacement, site: Site)
    requires r.Sound(site) && r.rolledBack
    ensures Undone(r, site)
  {
  }

  /******* Verification of the Series in Emby *******/

  function Matches(series: seq<R.SeriesRow>, tmdb: string): nat {
    if series == [] then 0
    else Matches(series[..|series| - 1], tmdb) + if series[|series| - 1].tmdb == tmdb then 1 else 0
  }

  // The Series Emby knows under `id` sits at `path` with the operation's identity, owns every
  // expected episode physically, and has no aired gap.
  ghost predicate Complete(r: CompletedPackReplacement, emby: R.Emby, id: Id, path: seq<string>)
    reads r, emby
  {
    && (exists row | row in emby.series :: row.id == id && row.isSeries && row.path == path && row.tmdb == r.tmdb)
    && id in emby.catalog && R.WellFormed(emby.catalog[id], id, path)
    && r.expected <= R.EpisodesOf(emby.catalog[id])
    && id !in emby.gaps
  }

  // verifyReplacementSeries: with `staged`, the old and the new Series side by side; otherwise the
  // new one alone at the canonical path.
  method VerifyReplacementSeries(r: CompletedPackReplacement, emby: R.Emby, staged: bool)
    returns (ok: bool, id: Id, items: map<R.ItemKey, Id>)
    requires r.oldPath != []
    ensures ok && !staged ==> Complete(r, emby, id, r.oldPath) && Matches(emby.series, r.tmdb) == 1
    ensures ok && staged ==>
              && Complete(r, emby, id, r.oldPath[..|r.oldPath| - 1] + [r.newFolder])
              && Matches(emby.series, r.tmdb) == 2 && id != r.oldSeriesId
              && exists row | row in emby.series :: row == R.SeriesRow(r.oldSeriesId, true, r.oldPath, r.tmdb)
    ensures ok ==> items == R.ItemsOf(emby.catalog[id], id)
  {
    items, id := map[], "";
    ok := emby.Attempt();
    if !ok {
      return;
    }
    var inventory := emby.series;
    var expectedPath := if staged then r.oldPath[..|r.oldPath| - 1] + [r.newFolder] else r.oldPath;
    var matches, oldBound := 0, false;
    var found: Option<R.SeriesRow> := None;
    for i := 0 to |inventory|
      invariant matches == Matches(inventory[..i], r.tmdb)
      invariant oldBound ==> R.SeriesRow(r.oldSeriesId, true, r.oldPath, r.tmdb) in inventory
      invariant found.Some? ==> found.value in inventory && found.value.isSeries && found.value.path == expectedPath && found.value.tmdb == r.tmdb
    {
      var series := inventory[i];
      assert inventory[..i + 1][..i] == inventory[..i];
      if series.id == r.oldSeriesId {
        oldBound := series.isSeries && series.path == r.oldPath && series.tmdb == r.tmdb;
      }
      if series.tmdb == r.tmdb {
        matches := matches + 1;
        if series.isSeries && series.path == expectedPath {
          found := Some(series);
        }
      }
    }
    assert inventory[..|inventory|] == inventory;
    if found.None? || matches != (if staged then 2 else 1) || (staged && (!oldBound || found.value.id == r.oldSeriesId)) {
      return false, "", map[];
    }
    var episodes;
    ok, items, episodes := emby.ReplacementItems(found.value.id, found.value.path);
    if !ok || !(r.expected <= episodes) {
      return false, "", map[];
    }
    ok := emby.Attempt();
    if !ok || found.value.id in emby.gaps {
      return false, "", map[];
    }
    return true, found.value.id, items;
  }

  /******* Finalize *******/

  // The snapshot was taken of every item of the old Series, for every user, before anything changed.
  ghost predicate OldStateTaken(seriesId: Id, path: seq<string>, expected: set<R.EpisodeNumber>, states: seq<R.UserState>,
                                users: seq<string>, catalog: map<Id, seq<R.Item>>, data: R.UserDataTable)
  {
    && users != []
    && seriesId in catalog && R.WellFormed(catalog[seriesId], seriesId, path)
    && R.IsSnapshot(states, users, R.ItemsOf(catalog[seriesId], seriesId), data)
    && R.EpisodesOf(catalog[seriesId]) <= expected
  }

  // Both folders are where staging left them.
  ghost predicate Staged(r: CompletedPackReplacement, site: Site)
    reads r, site
  {
    && r.newCid != "" && r.newCid != r.oldCid && r.canonicalStrmInode.None?
    && (site.quiet ==> r.newCid in site.objects)
  }

  // The quarantine is an empty folder of its own and the backup does not exist yet.
  ghost predicate Prepared(r: CompletedPackReplacement, site: Site)
    reads r, site
  {
    && Staged(r, site)
    && (site.quiet ==>
          && At(site.dirs, r.Backup()).None?
          && r.quarantineCid in site.objects && r.quarantineCid != r.libraryCid
          && r.quarantineCid != r.staged && r.quarantineCid !in r.received
          && forall id | id in site.objects :: site.objects[id].parent != r.quarantineCid)
  }

  // Everything up to the point where the cutover starts.
  method PrepareCutover(r: CompletedPackReplacement, site: Site, emby: R.Emby) returns (ok: bool)
    requires r.Sound(site) && !r.cutoverStarted && !r.finalized
    modifies r`expected, r`states, r`destinationStates, r`backupDir, r`quarantineCid, r`cutoverStarted
    modifies site`objects, site`dirs, site`log
    ensures r.Sound(site)
    ensures ok <==> r.cutoverStarted
    ensures ok ==> Prepared(r, site)
    ensures old(r.expected) <= r.expected
    ensures ok ==> OldStateTaken(r.oldSeriesId, r.oldPath, r.expected, r.states, emby.users, emby.catalog, emby.data)
    ensures ok ==> (forall s | s in r.states :: s in r.destinationStates) && R.Consistent(r.destinationStates)
  {
    ok := RecordStates(r, emby);
    if !ok {
      return false;
    }
    ok := CheckStaged(r, site);
    if !ok {
      return false;
    }
    ok := QuarantineAndStart(r, site, emby);
  }

  method RecordStates(r: CompletedPackReplacement, emby: R.Emby) returns (ok: bool)
    requires r.oldPath != []
    modifies r`expected, r`states, r`destinationStates
    ensures old(r.expected) <= r.expected
    ensures ok ==> OldStateTaken(r.oldSeriesId, r.oldPath, r.expected, r.states, emby.users, emby.catalog, emby.data)
    ensures ok ==> (forall s | s in r.states :: s in r.destinationStates) && R.Consistent(r.destinationStates)
  {
    var staged, newId, newItems := VerifyReplacementSeries(r, emby, true);
    if !staged {
      return false;
    }
    ok := SnapshotStates(r, emby, newItems);
  }

  // The quarantine is made, the two Series are looked at once more, and the cutover starts.
  method QuarantineAndStart(r: CompletedPackReplacement, site: Site, emby: R.Emby) returns (ok: bool)
    requires r.Sound(site) && !r.cutoverStarted && !r.finalized && Staged(r, site)
    modifies r`backupDir, r`quarantineCid, r`cutoverStarted, site`objects, site`dirs, site`log
    ensures r.Sound(site)
    ensures ok <==> r.cutoverStarted
    ensures ok ==> Prepared(r, site)
  {
    ok := MakeQuarantine(r, site);
    if !ok {
      return false;
    }
    var staged, newId, newItems := VerifyReplacementSeries(r, emby, true);
    if !staged {
      return false;
    }
    var idle := emby.Attempt();
    if !idle {
      return false;
    }
    ok := StartCutover(r, site);
  }

  method CheckStaged(r: CompletedPackReplacement, site: Site) returns (ok: bool)
    requires r.Sound(site) && !r.cutoverStarted && !r.finalized
    modifies site`objects, site`dirs, site`log
    ensures r.Sound(site)
    ensures ok ==> Staged(r, site)
  {
    var folders;
    ok, folders := ListLibrary(r, site);
    if !ok {
      return false;
    }
    ok := FolderIs(folders, r.oldCid, r.oldFolder) && FolderIs(folders, r.newCid, r.newFolder);
  }

  method StartCutover(r: CompletedPackReplacement, site: Site) returns (ok: bool)
    requires r.Sound(site) && !r.cutoverStarted && !r.finalized && Prepared(r, site)
    modifies r`cutoverStarted, site`objects, site`dirs, site`log
    ensures r.Sound(site) && Prepared(r, site)
    ensures ok <==> r.cutoverStarted
  {
    var info := site.Lstat(r.Canonical());
    if !info.Found? || !info.tree.isRealDir {
      return false;
    }
    r.cutoverStarted := true;
    return true;
  }

  // Match the old items to the new ones and record every user's state of both.
  method SnapshotStates(r: CompletedPackReplacement, emby: R.Emby, newItems: map<R.ItemKey, Id>) returns (ok: bool)
    modifies r`expected, r`states, r`destinationStates
    ensures old(r.expected) <= r.expected
    ensures ok ==> OldStateTaken(r.oldSeriesId, r.oldPath, r.expected, r.states, emby.users, emby.catalog, emby.data)
    ensures ok ==> forall s | s in r.states :: s in r.destinationStates
    ensures ok ==> R.Consistent(r.destinationStates)
    ensures ok ==> forall k | k in R.ItemsOf(emby.catalog[r.oldSeriesId], r.oldSeriesId) :: k in newItems && newItems[k] != ""
  {
    var oldItems, oldEpisodes;
    ok, oldItems, oldEpisodes := emby.ReplacementItems(r.oldSeriesId, r.oldPath);
    if !ok {
      return false;
    }
    if exists k | k in oldItems :: k !in newItems || newItems[k] == "" {
      return false;
    }
    r.expected := r.expected + oldEpisodes;
    ok := emby.Attempt();
    if !ok {
      return false;
    }
    var states;
    ok, states := emby.Snapshot(oldItems);
    if !ok {
      return false;
    }
    r.states, r.destinationStates := states, states;
    R.SnapshotIsConsistent(states, emby.users, oldItems, emby.data);
    var extraItems := map k | k in newItems && k !in oldItems :: newItems[k];
    if extraItems != map[] {
      var extraStates;
      ok, extraStates := emby.Snapshot(extraItems);
      if !ok {
        return false;
      }
      R.SnapshotsAreConsistent(states, extraStates, emby.users, emby.users, oldItems, extraItems, emby.data);
      r.destinationStates := r.destinationStates + extraStates;
    }
    return true;
  }

  // The backup directory, the quarantine folder and the durable snapshot.
  method MakeQuarantine(r: CompletedPackReplacement, site: Site) returns (ok: bool)
    requires r.Sound(site) && !r.cutoverStarted && !r.finalized && Staged(r, site)
    modifies r`backupDir, r`quarantineCid, site`objects, site`dirs, site`log
    ensures r.Sound(site)
    ensures ok ==> Prepared(r, site)
  {
    ok := MakeBackup(r, site);
    if !ok {
      return false;
    }
    ok := MakeQuarantineFolder(r, site);
    if !ok {
      return false;
    }
    ok := site.Attempt();
  }

  method MakeBackup(r: CompletedPackReplacement, site: Site) returns (ok: bool)
    requires r.Sound(site) && !r.cutoverStarted && !r.finalized && Staged(r, site)
    modifies r`backupDir, site`objects, site`dirs, site`log
    ensures r.Sound(site) && Staged(r, site)
    ensures ok && site.quiet ==> At(site.dirs, r.Backup()).None?
  {
    ok := site.Attempt();
    if !ok {
      return false;
    }
    ok, r.backupDir := site.MkdirTemp();
  }

  method MakeQuarantineFolder(r: CompletedPackReplacement, site: Site) returns (ok: bool)
    requires r.Sound(site) && !r.cutoverStarted && !r.finalized && Staged(r, site)
    requires site.quiet ==> At(site.dirs, r.Backup()).None?
    modifies r`quarantineCid, site`objects, site`dirs, site`log
    ensures r.Sound(site)
    ensures ok ==> Prepared(r, site)
  {
    var uuid: string := *;
    var cid;
    ghost var made;
    ok, cid, made := site.CreateReplacementFolder(ROOT, "embymedia-replacement-" + uuid);
    TraceExtend(old(site.log), site.log[|old(site.log)|..], r.InPlay());
    assert old(site.log) + site.log[|old(site.log)|..] == site.log;
    r.quarantineCid := cid;
  }

  // The cutover proper: quarantine the original, rename the copy, swap the STRM trees.
  method SwapRoots(r: CompletedPackReplacement, site: Site) returns (ok: bool)
    requires r.Sound(site) && r.cutoverStarted && !r.finalized && Prepared(r, site)
    modifies r`canonicalStrmInode, site`objects, site`dirs, site`log
    ensures r.Sound(site)
    ensures ok && site.quiet ==> RootsSwapped(r, site)
  {
    ok := SwapFolders(r, site);
    if !ok {
      return;
    }
    ok := SwapStrm(r, site);
  }

  ghost predicate FoldersSwapped(r: CompletedPackReplacement, site: Site)
    reads r, site
  {
    && r.oldCid in site.objects && site.objects[r.oldCid].parent == r.quarantineCid
    && r.staged in site.objects && site.objects[r.staged].name == r.oldFolder
  }

  ghost predicate RootsSwapped(r: CompletedPackReplacement, site: Site)
    reads r, site
  {
    && FoldersSwapped(r, site)
    && At(site.dirs, r.Backup()) == r.original && At(site.dirs, r.Backup()).Some?
    && At(site.dirs, r.Canonical()).Some?
    && At(site.dirs, r.Staging()).None?
  }

  method SwapFolders(r: CompletedPackReplacement, site: Site) returns (ok: bool)
    requires r.Sound(site) && r.cutoverStarted && !r.finalized && Prepared(r, site)
    modifies site`objects, site`dirs, site`log
    ensures r.Sound(site)
    ensures ok && site.quiet ==> FoldersSwapped(r, site) && At(site.dirs, r.Backup()).None?
  {
    if site.quiet {
      OriginalQuarantined(r.Now(), site.objects);
    }
    ok := site.Move(r.oldCid, r.quarantineCid);
    TraceAppend(old(site.log), MoveCall(r.oldCid, r.quarantineCid), r.InPlay());
    if !ok {
      return;
    }
    ghost var log := site.log;
    if site.quiet {
      StagingPromoted(r.Now(), site.objects);
    }
    ok := site.Rename(r.newCid, r.oldFolder);
    TraceAppend(log, RenameCall(r.newCid, r.oldFolder), r.InPlay());
    if !ok {
      return;
    }
    ok := site.Attempt();
  }

  method SwapStrm(r: CompletedPackReplacement, site: Site) returns (ok: bool)
    requires r.Sound(site) && r.cutoverStarted && !r.finalized && r.canonicalStrmInode.None?
    requires site.quiet ==> FoldersSwapped(r, site) && At(site.dirs, r.Backup()).None?
    modifies r`canonicalStrmInode, site`objects, site`dirs, site`log
    ensures r.Sound(site)
    ensures ok && site.quiet ==> RootsSwapped(r, site)
  {
    ok := MoveStrmAside(r, site);
    if !ok {
      return;
    }
    var info := site.Lstat(r.Canonical());
    if !info.Found? {
      return false;
    }
    r.canonicalStrmInode := Some(info.tree.inode);
    ok := site.RemoveOwned(r.Staging(), r.newStrmInode);
  }

  // The original tree goes to the backup and an empty directory of our own takes its place.
  method MoveStrmAside(r: CompletedPackReplacement, site: Site) returns (ok: bool)
    requires r.Sound(site) && r.cutoverStarted && !r.finalized && r.canonicalStrmInode.None?
    requires site.quiet ==> FoldersSwapped(r, site) && At(site.dirs, r.Backup()).None?
    modifies site`objects, site`dirs, site`log
    ensures r.Sound(site)
    ensures ok && site.quiet ==>
              && FoldersSwapped(r, site)
              && At(site.dirs, r.Backup()).Some?
              && At(site.dirs, r.Canonical()).Some? && At(site.dirs, r.Canonical()).value.isRealDir
  {
    ok := site.RenameDir(r.Canonical(), r.Backup());
    if !ok {
      return;
    }
    ok := site.MkdirDir(r.Canonical());
  }

  lemma OriginalQuarantined(v: View, objects: map<Id, Node>)
    requires CloudSound(v, objects) && v.cutover && !v.finalized && v.names.staged in objects
    requires objects[v.names.staged].name == v.names.newFolder != v.names.oldFolder
    ensures CloudSound(v, Moved(objects, v.names.original, v.quarantine))
  {
  }

  lemma StagingPromoted(v: View, objects: map<Id, Node>)
    requires CloudSound(v, objects) && v.cutover && !v.finalized && v.names.staged in objects
    requires objects[v.names.original].parent == v.quarantine
    ensures CloudSound(v, Renamed(objects, v.names.staged, v.names.oldFolder))
  {
  }

  // Fill the new canonical tree, let Emby rescan it, and give it the recorded user state.
  method AdoptCanonical(r: CompletedPackReplacement, site: Site, emby: R.Emby) returns (ok: bool, newId: Id, mismatch: bool)
    requires r.Sound(site) && r.cutoverStarted && !r.finalized && !r.rolledBack
    requires site.quiet ==> RootsSwapped(r, site)
    modifies r`finalized, site`objects, site`dirs, site`log, emby
    ensures r.Sound(site)
    ensures ok <==> r.finalized
    ensures ok && site.quiet ==> RootsSwapped(r, site)
    ensures ok ==> Complete(r, emby, newId, r.oldPath) && Matches(emby.series, r.tmdb) == 1
    ensures ok ==> R.Holds(emby.data, r.destinationStates, R.ItemsOf(emby.catalog[newId], newId))
    ensures emby.faithful && emby.orderly && R.Consistent(r.destinationStates) ==> !mismatch
  {
    newId, mismatch := "", false;
    ok := site.SyncStrm(r.oldFolder);
    if !ok {
      return;
    }
    ok, newId, mismatch := AdoptSeries(r, emby);
    if !ok {
      return;
    }
    ok := Commit(r, site);
  }

  method AdoptSeries(r: CompletedPackReplacement, emby: R.Emby) returns (ok: bool, newId: Id, mismatch: bool)
    requires r.oldPath != []
    modifies emby
    ensures ok ==> Complete(r, emby, newId, r.oldPath) && Matches(emby.series, r.tmdb) == 1
    ensures ok ==> R.Holds(emby.data, r.destinationStates, R.ItemsOf(emby.catalog[newId], newId))
    ensures emby.faithful && emby.orderly && R.Consistent(r.destinationStates) ==> !mismatch
  {
    newId, mismatch := "", false;
    ok := emby.RunLibraryScan();
    if !ok {
      return;
    }
    var newItems;
    ok, newId, newItems := VerifyReplacementSeries(r, emby, false);
    if !ok {
      return;
    }
    var restored := emby.Restore(r.destinationStates, newItems);
    ok, mismatch := restored.Restored?, restored.Mismatch?;
  }

  // Mark the operation finalized and make that durable, or take the mark back.
  method Commit(r: CompletedPackReplacement, site: Site) returns (ok: bool)
    requires r.Sound(site) && r.cutoverStarted && !r.finalized && !r.rolledBack
    requires site.quiet ==> RootsSwapped(r, site)
    modifies r`finalized, site`objects, site`dirs, site`log
    ensures r.Sound(site)
    ensures ok <==> r.finalized
    ensures ok && site.quiet ==> RootsSwapped(r, site)
  {
    r.finalized := true;
    ok := site.Attempt();
    if !ok {
      r.finalized := false;
    }
  }

  // Each user's state of each old item is what the corresponding new item now has.
  ghost predicate StateCarriedOver(users: seq<string>, oldItems: map<R.ItemKey, Id>, before: R.UserDataTable,
                                   newItems: map<R.ItemKey, Id>, after: R.UserDataTable)
  {
    forall u, k | u in users && k in oldItems ::
      && (u, oldItems[k]) in before
      && k in newItems && (u, newItems[k]) in after
      && after[(u, newItems[k])] == before[(u, oldItems[k])]
  }

  lemma CarryOver(states: seq<R.UserState>, destination: seq<R.UserState>, users: seq<string>,
                  oldItems: map<R.ItemKey, Id>, before: R.UserDataTable,
                  newItems: map<R.ItemKey, Id>, after: R.UserDataTable)
    requires R.IsSnapshot(states, users, oldItems, before)
    requires forall s | s in states :: s in destination
    requires R.Holds(after, destination, newItems)
    ensures StateCarriedOver(users, oldItems, before, newItems, after)
  {
    forall u, k | u in users && k in oldItems
      ensures (u, oldItems[k]) in before && k in newItems && (u, newItems[k]) in after
      ensures after[(u, newItems[k])] == before[(u, oldItems[k])]
    {
      var s := R.UserState(u, k, before[(u, oldItems[k])]);
      assert s in states && s in destination;
    }
  }

  // finalizeCompletedPack: cut over, or roll back what was begun.
  method FinalizeCompletedPack(r: CompletedPackReplacement, site: Site, emby: R.Emby) returns (result: FinalizeResult)
    requires r.Sound(site) && (r.cutoverStarted ==> r.finalized)
    modifies r, site`objects, site`dirs, site`log, emby
    ensures r.Sound(site)
    ensures r.staged == old(r.staged) && r.original == old(r.original) && old(r.expected) <= r.expected
    ensures result.Replaced? ==> !old(r.finalized) && r.finalized && (site.quiet ==> RootsSwapped(r, site))
    ensures result.Replaced? ==>
              && Complete(r, emby, result.newId, r.oldPath) && Matches(emby.series, r.tmdb) == 1
              && old(r.expected) <= r.expected
              && OldStateTaken(r.oldSeriesId, r.oldPath, r.expected, r.states, old(emby.users), old(emby.catalog), old(emby.data))
              && StateCarriedOver(old(emby.users), R.ItemsOf(old(emby.catalog)[r.oldSeriesId], r.oldSeriesId), old(emby.data),
                                  R.ItemsOf(emby.catalog[result.newId], result.newId), emby.data)
    ensures result.Failed? ==> r.finalized == old(r.finalized)
    // A faithful and orderly Emby never makes it fail by a mismatch, nor the rollback of a cutover.
    ensures result.Failed? && emby.faithful && emby.orderly ==> !result.mismatch && result.rollback != EmbyFailed(true)
    ensures result.Failed? && result.rollback.RolledBack? ==> r.rolledBack
    ensures result.Failed? && r.rollbackScanned && !old(r.rollbackScanned) ==>
              && UserStateRestored(r.oldPath, r.tmdb, r.states, emby)
              && OldStateTaken(r.oldSeriesId, r.oldPath, r.expected, r.states, old(emby.users), old(emby.catalog), old(emby.data))
    ensures result.Failed? && r.cutoverStarted && !r.finalized ==>
              OldStateTaken(r.oldSeriesId, r.oldPath, r.expected, r.states, old(emby.users), old(emby.catalog), old(emby.data))
  {
    if r.finalized {
      var nothing := RollbackCompletedPack(r, site, emby);
      return Failed(false, nothing);
    }
    var ok, newId, mismatch := CutOver(r, site, emby);
    if ok {
      return Replaced(newId);
    }
    if r.cutoverStarted {
      R.SnapshotIsConsistent(r.states, old(emby.users), R.ItemsOf(old(emby.catalog)[r.oldSeriesId], r.oldSeriesId), old(emby.data));
    }
    var rollback := RollbackCompletedPack(r, site, emby);
    return Failed(mismatch, rollback);
  }

  method CutOver(r: CompletedPackReplacement, site: Site, emby: R.Emby) returns (ok: bool, newId: Id, mismatch: bool)
    requires r.Sound(site) && !r.cutoverStarted && !r.finalized
    modifies r`expected, r`states, r`destinationStates, r`backupDir, r`quarantineCid, r`cutoverStarted
    modifies r`canonicalStrmInode, r`finalized, site`objects, site`dirs, site`log, emby
    ensures r.Sound(site)
    ensures ok <==> r.finalized
    ensures emby.faithful && emby.orderly ==> !mismatch
    ensures ok && site.quiet ==> RootsSwapped(r, site)
    ensures old(r.expected) <= r.expected
    ensures r.cutoverStarted ==> OldStateTaken(r.oldSeriesId, r.oldPath, r.expected, r.states, old(emby.users), old(emby.catalog), old(emby.data))
    ensures ok ==>
              && r.cutoverStarted && Complete(r, emby, newId, r.oldPath) && Matches(emby.series, r.tmdb) == 1
              && StateCarriedOver(old(emby.users), R.ItemsOf(old(emby.catalog)[r.oldSeriesId], r.oldSeriesId), old(emby.data),
                                  R.ItemsOf(emby.catalog[newId], newId), emby.data)
  {
    newId, mismatch := "", false;
    ok := PrepareCutover(r, site, emby);
    if !ok {
      return;
    }
    ok, newId, mismatch := SwapAndAdopt(r, site, emby);
    if ok {
      CarryOver(r.states, r.destinationStates, old(emby.users), R.ItemsOf(old(emby.catalog)[r.oldSeriesId], r.oldSeriesId),
                old(emby.data), R.ItemsOf(emby.catalog[newId], newId), emby.data);
    }
  }

  method SwapAndAdopt(r: CompletedPackReplacement, site: Site, emby: R.Emby) returns (ok: bool, newId: Id, mismatch: bool)
    requires r.Sound(site) && r.cutoverStarted && !r.finalized && !r.rolledBack && Prepared(r, site)
    modifies r`canonicalStrmInode, r`finalized, site`objects, site`dirs, site`log, emby
    ensures r.Sound(site)
    ensures ok <==> r.finalized
    ensures ok && site.quiet ==> RootsSwapped(r, site)
    ensures ok ==> Complete(r, emby, newId, r.oldPath) && Matches(emby.series, r.tmdb) == 1
    ensures ok ==> R.Holds(emby.data, r.destinationStates, R.ItemsOf(emby.catalog[newId], newId))
    ensures emby.faithful && emby.orderly && R.Consistent(r.destinationStates) ==> !mismatch
  {
    newId, mismatch := "", false;
    ok := SwapRoots(r, site);
    if ok {
      ok, newId, mismatch := AdoptCanonical(r, site, emby);
    }
  }

  /******* Stage, and a whole run *******/

  // What inspecting one share candidate led to.
  datatype Inspection = Skipped | InspectionFailed | StopProbing | Suitable

  // The original folder as it was resolved: one folder with the canonical name under the library.
  ghost predicate Resolved(objects: map<Id, Node>, libraryCid: Id, oldCid: Id, oldFolder: string) {
    && oldCid != "" && "" !in objects
    && oldCid in objects && objects[oldCid] == Node(libraryCid, oldFolder, true)
    && forall id | id in objects && objects[id].parent == libraryCid && objects[id].name == oldFolder :: id == oldCid
  }

  // The original is as it was found, in the cloud and on disk.
  ghost predicate OriginalIntact(site: Site, libraryCid: Id, oldCid: Id, oldFolder: string, original: Option<Tree>)
    reads site
  {
    site.quiet ==>
      && oldCid in site.objects && site.objects[oldCid] == Node(libraryCid, oldFolder, true)
      && At(site.dirs, InLibrary(oldFolder)) == original
  }

  // Every folder a mkdir made was deleted by a deletion that was carried out.
  predicate EveryMadeDeleted(log: seq<Call>) {
    forall i | 0 <= i < |log| && log[i].MkdirCall? && log[i].made.Some? :: DeleteCall(log[i].made.value, true) in log
  }

  // What is new is one folder and what lies below it.
  ghost predicate NewAtOrBelow(before: map<Id, Node>, after: map<Id, Node>, node: Node, root: Id) {
    forall id | id in after && id !in before :: root in after && root !in before && after[root] == node && id in Subtree(after, root)
  }

  // What a staging that yields nothing leaves in the account: at most one folder with the staging name and what was
  // received into it, and nothing at all exactly if every folder it made was deleted.
  ghost predicate CloudLeft(before: map<Id, Node>, after: map<Id, Node>, node: Node, log: seq<Call>) {
    && (forall id | id in before :: id in after && after[id] == before[id])
    && (exists root :: NewAtOrBelow(before, after, node, root))
    && (after == before <==> EveryMadeDeleted(log))
  }

  // And on disk: at most the staging directory.
  ghost predicate StrmLeft(before: map<StrmPath, Tree>, after: map<StrmPath, Tree>, path: StrmPath) {
    OnlyAt(path, before, after) && (At(after, path) == At(before, path) || At(before, path).None?)
  }

  ghost predicate StagingLeft(before: map<Id, Node>, after: map<Id, Node>, strmBefore: map<StrmPath, Tree>, strmAfter: map<StrmPath, Tree>,
                              libraryCid: Id, oldFolder: string, log: seq<Call>)
  {
    exists name: string :: oldFolder + " [replacement-" <= name &&
      CloudLeft(before, after, Node(libraryCid, name, true), log) && StrmLeft(strmBefore, strmAfter, InLibrary(name))
  }

  lemma NothingLeft(objects: map<Id, Node>, dirs: map<StrmPath, Tree>, libraryCid: Id, oldFolder: string)
    ensures StagingLeft(objects, objects, dirs, dirs, libraryCid, oldFolder, [])
  {
    var name := oldFolder + " [replacement-";
    assert NewAtOrBelow(objects, objects, Node(libraryCid, name, true), "");
    assert CloudLeft(objects, objects, Node(libraryCid, name, true), []);
  }

  lemma LeftUnder(name: string, before: map<Id, Node>, after: map<Id, Node>, strmBefore: map<StrmPath, Tree>, strmAfter: map<StrmPath, Tree>,
                  libraryCid: Id, oldFolder: string, log: seq<Call>)
    requires oldFolder + " [replacement-" <= name
    requires CloudLeft(before, after, Node(libraryCid, name, true), log) && StrmLeft(strmBefore, strmAfter, InLibrary(name))
    ensures StagingLeft(before, after, strmBefore, strmAfter, libraryCid, oldFolder, log)
  {
  }

  lemma NoFolderLeft(objects: map<Id, Node>, node: Node)
    ensures CloudLeft(objects, objects, node, [])
  {
    assert NewAtOrBelow(objects, objects, node, "");
  }

  // The account after the staging folder was made, if it was, and the share received into it, if it was confirmed.
  ghost predicate Filled(before: map<Id, Node>, after: map<Id, Node>, node: Node, made: Option<Id>, staged: Id, received: set<Id>) {
    match made
    case None => staged == "" && after == before
    case Some(id) =>
      && MadeFolder(before, before[id := node], node, made)
      && if staged == "" then after == before[id := node] else staged == id && Received(before[id := node], after, id, received)
  }

  predicate FillingCalls(calls: seq<Call>, made: Option<Id>) {
    && (forall i | 0 <= i < |calls| :: calls[i].Listed? || calls[i].ReceiveCall? || (calls[i].MkdirCall? && calls[i].made == made))
    && (made.Some? ==> exists i | 0 <= i < |calls| :: calls[i].MkdirCall?)
  }

  // Deleting the staging folder undoes exactly what filled it.
  lemma StagingUndone(before: map<Id, Node>, filled: map<Id, Node>, node: Node, id: Id, received: set<Id>)
    requires MadeFolder(before, before[id := node], node, Some(id)) && Received(before[id := node], filled, id, received)
    ensures Subtree(filled, id) == {id} + received && filled - Subtree(filled, id) == before
    ensures forall x | x in filled && x !in before :: x in Subtree(filled, id)
  {
    SubtreeIsClosed(filled, id);
    assert Closed(filled, {id} + received);
  }

  lemma WhatStagingLeaves(before: map<Id, Node>, filled: map<Id, Node>, after: map<Id, Node>, node: Node, made: Option<Id>, staged: Id,
                          received: set<Id>, filling: seq<Call>, undoing: seq<Call>)
    requires Filled(before, filled, node, made, staged, received) && FillingCalls(filling, made)
    requires OnlyStagingGone(staged, filled, after, undoing)
    ensures CloudLeft(before, after, node, filling + undoing)
  {
    var log := filling + undoing;
    match made
    case None =>
      assert NewAtOrBelow(before, after, node, "");
    case Some(id) =>
      var i :| 0 <= i < |filling| && filling[i].MkdirCall?;
      assert log[i].made == Some(id);
      if staged == "" {
        SubtreeIsClosed(after, id);
        assert NewAtOrBelow(before, after, node, id);
      } else {
        StagingUndone(before, filled, node, id, received);
        SubtreeIsClosed(filled, id);
        assert NewAtOrBelow(before, after, node, id);
      }
  }

  lemma FillingIsSafe(filling: seq<Call>, undoing: seq<Call>, n: Names, before: map<Id, Node>, made: map<Id, Node>)
    requires filling == [Listed(n.library, before), MkdirCall(n.library, n.newFolder, Some(n.staged)), Listed(n.library, made), ReceiveCall(n.staged)]
    requires undoing == [Listed(n.library, made), DeleteCall(n.staged, false)]
    requires n.staged != n.original && FolderIs(made, n.staged, n.newFolder)
    ensures TraceSafe(filling + undoing, n)
  {
    var log := filling + undoing;
    forall i | 0 <= i < |log|
      ensures SafeAt(log, i, n)
    {
      if i == 5 {
        assert log[..i][4] == undoing[0];
      }
    }
  }

  // Part of a share arrives, the rollback's deletion fails, and the staging folder stays with what is in it.
  lemma StagingCanLeave() returns (before: map<Id, Node>, filled: map<Id, Node>, node: Node, received: set<Id>,
                                   filling: seq<Call>, undoing: seq<Call>, names: Names)
    ensures Resolved(before, names.library, names.original, names.oldFolder) && names.oldFolder + " [replacement-" <= node.name
    ensures Filled(before, filled, node, Some(names.staged), names.staged, received) && FillingCalls(filling, Some(names.staged))
    ensures OnlyStagingGone(names.staged, filled, filled, undoing) && TraceSafe(filling + undoing, names)
    ensures received != {} && filled == before + map[names.staged := node] + map id | id in received :: filled[id]
    ensures !EveryMadeDeleted(filling + undoing)
  {
    var original, file := Node("1", "Show", true), Node("333", "Show.S01E01.mkv", false);
    node := Node("1", "Show [replacement-1]", true);
    before := map["22" := original];
    var made := before["333" := node];
    filled := made["4444" := file];
    names := Names("1", "22", "Show", "Show [replacement-1]", "333");
    filling := [Listed("1", before), MkdirCall("1", node.name, Some("333")), Listed("1", made), ReceiveCall("333")];
    undoing := [Listed("1", made), DeleteCall("333", false)];
    received := {"4444"};
    SubtreeIsClosed(filled, "333");
    assert filled["4444"].parent == "333";
    assert Received(made, filled, "333", received);
    assert filling[1].MkdirCall?;
    assert FolderIs(made, "333", node.name);
    FillingIsSafe(filling, undoing, names, before, made);
    assert (filling + undoing)[1] == filling[1] && DeleteCall("333", true) !in filling + undoing;
  }

  method StageCompletedPack(site: Site, emby: R.Emby, libraryCid: Id, oldCid: Id, series: R.SeriesRow,
                            gaps: set<R.EpisodeNumber>, candidates: seq<Inspection>)
    returns (r: CompletedPackReplacement?, ghost names: Names)
    requires series.path != [] && oldCid != "" && site.log == []
    requires site.quiet ==> Resolved(site.objects, libraryCid, oldCid, series.path[|series.path| - 1])
    modifies site`objects, site`dirs, site`log, emby
    ensures r == null ==> OriginalIntact(site, libraryCid, oldCid, series.path[|series.path| - 1],
                                         old(At(site.dirs, InLibrary(series.path[|series.path| - 1]))))
    ensures r == null ==> TraceSafe(site.log, names) && !HasMove(site.log)
    ensures r == null && site.quiet ==>
              StagingLeft(old(site.objects), site.objects, old(site.dirs), site.dirs, libraryCid, series.path[|series.path| - 1], site.log)
    ensures r != null && site.quiet ==> At(site.dirs, r.Staging()).Some?
    ensures r != null ==>
              && fresh(r) && r.Sound(site) && names == r.InPlay()
              && !r.cutoverStarted && !r.finalized && !r.rolledBack && !r.rollbackScanned
              && r.libraryCid == libraryCid && r.oldCid == oldCid && r.oldFolder == series.path[|series.path| - 1]
              && r.oldPath == series.path && r.oldSeriesId == series.id && r.tmdb == series.tmdb
              && r.original == At(old(site.dirs), InLibrary(r.oldFolder)) && gaps <= r.expected
    ensures names.original == oldCid && names.library == libraryCid && names.oldFolder == series.path[|series.path| - 1]
  {
    var oldFolder := series.path[|series.path| - 1];
    names := Names(libraryCid, oldCid, oldFolder, "", "");
    r := null;
    NothingLeft(site.objects, site.dirs, libraryCid, oldFolder);
    if !series.isSeries || series.tmdb == "" {
      return;
    }
    var ok, items, expected := emby.ReplacementItems(series.id, series.path);
    if !ok || expected + gaps == {} {
      return;
    }
    for i := 0 to |candidates|
      invariant r == null && site.log == old(site.log)
      invariant names == Names(libraryCid, oldCid, oldFolder, "", "")
      invariant site.quiet ==> site.objects == old(site.objects) && site.dirs == old(site.dirs)
    {
      if candidates[i].StopProbing? {
        return;
      }
      if candidates[i].Suitable? {
        r, names := StageCandidate(site, emby, libraryCid, oldCid, oldFolder, series, expected + gaps);
        return;
      }
    }
  }

  method StageCandidate(site: Site, emby: R.Emby, libraryCid: Id, oldCid: Id, oldFolder: string, series: R.SeriesRow,
                        expected: set<R.EpisodeNumber>)
    returns (r: CompletedPackReplacement?, ghost names: Names)
    requires series.path != [] && oldCid != "" && site.log == [] && oldFolder == series.path[|series.path| - 1]
    requires site.quiet ==> Resolved(site.objects, libraryCid, oldCid, oldFolder)
    modifies site`objects, site`dirs, site`log, emby
    ensures r == null ==> OriginalIntact(site, libraryCid, oldCid, oldFolder, old(At(site.dirs, InLibrary(oldFolder))))
    ensures r == null ==> TraceSafe(site.log, names) && !HasMove(site.log)
    ensures r == null && site.quiet ==>
              StagingLeft(old(site.objects), site.objects, old(site.dirs), site.dirs, libraryCid, oldFolder, site.log)
    ensures r != null && site.quiet ==> At(site.dirs, r.Staging()).Some?
    ensures r != null ==>
              && fresh(r) && r.Sound(site) && names == r.InPlay()
              && !r.cutoverStarted && !r.finalized && !r.rolledBack && !r.rollbackScanned
              && r.libraryCid == libraryCid && r.oldCid == oldCid && r.oldFolder == oldFolder
              && r.oldPath == series.path && r.oldSeriesId == series.id && r.tmdb == series.tmdb
              && r.original == old(At(site.dirs, InLibrary(oldFolder))) && r.expected == expected
    ensures names.original == oldCid && names.library == libraryCid && names.oldFolder == oldFolder
  {
    names := Names(libraryCid, oldCid, oldFolder, "", "");
    r := null;
    NothingLeft(site.objects, site.dirs, libraryCid, oldFolder);
    var uuid: string := *;
    var newFolder := oldFolder + " [replacement-" + uuid + "]";
    assert |newFolder| > |oldFolder|;
    var ok := site.MkdirDir(InLibrary(newFolder));
    if site.quiet {
      NoFolderLeft(site.objects, Node(libraryCid, newFolder, true));
      LeftUnder(newFolder, site.objects, site.objects, old(site.dirs), site.dirs, libraryCid, oldFolder, []);
    }
    if !ok {
      return;
    }
    var info := site.Lstat(InLibrary(newFolder));
    if !info.Found? {
      return;
    }
    ghost var original := old(At(site.dirs, InLibrary(oldFolder)));
    var created := new CompletedPackReplacement(libraryCid, series.id, oldFolder, oldCid, series.path, newFolder, series.tmdb,
                                                expected, info.tree.inode, original);
    assert created.Sound(site);
    ok := FillOrUndo(created, site, emby);
    names := created.InPlay();
    if ok {
      r := created;
    } else if site.quiet {
      LeftUnder(newFolder, old(site.objects), site.objects, old(site.dirs), site.dirs, libraryCid, oldFolder, site.log);
    }
  }

  method FillOrUndo(r: CompletedPackReplacement, site: Site, emby: R.Emby) returns (ok: bool)
    requires r.Sound(site) && site.log == [] && r.newCid == "" && r.staged == "" && r.received == {}
    requires !r.cutoverStarted && !r.finalized && !r.rolledBack && !r.rollbackScanned
    modifies r`newCid, r`staged, r`received, r`canonicalStrmInode, r`cutoverStarted, r`rolledBack, r`rollbackScanned
    modifies site`objects, site`dirs, site`log, emby
    ensures r.Sound(site) && !HasMove(site.log) && !r.cutoverStarted && !r.rollbackScanned
    ensures ok ==> !r.rolledBack && (site.quiet ==> site.dirs == old(site.dirs))
    ensures !ok && site.quiet ==>
              && CloudLeft(old(site.objects), site.objects, Node(r.libraryCid, r.newFolder, true), site.log)
              && OnlyAt(r.Staging(), old(site.dirs), site.dirs)
  {
    ghost var made;
    ok, made := FillStaging(r, site);
    if !ok {
      ghost var filled, filling, staged, received := site.objects, site.log, r.staged, r.received;
      var rollback := RollbackCompletedPack(r, site, emby);
      if site.quiet {
        WhatStagingLeaves(old(site.objects), filled, site.objects, Node(r.libraryCid, r.newFolder, true), made, staged, received,
                          filling, site.log[|filling|..]);
        assert filling + site.log[|filling|..] == site.log;
      }
    }
  }

  // Create the staging folder, receive the share into it, and wait for it to appear.
  method FillStaging(r: CompletedPackReplacement, site: Site) returns (ok: bool, ghost made: Option<Id>)
    requires r.Sound(site) && site.log == [] && r.newCid == "" && r.staged == "" && r.received == {}
    requires !r.cutoverStarted && !r.finalized && !r.rolledBack
    modifies r`newCid, r`staged, r`received, site`objects, site`dirs, site`log
    ensures r.Sound(site) && !HasMove(site.log) && FillingCalls(site.log, made)
    ensures site.quiet ==> site.dirs == old(site.dirs)
    ensures site.quiet ==> Filled(old(site.objects), site.objects, Node(r.libraryCid, r.newFolder, true), made, r.staged, r.received)
  {
    made := None;
    ok := site.Attempt();
    if !ok {
      return;
    }
    ok, made := CreateStaging(r, site);
    if !ok {
      return;
    }
    ghost var calls := site.log;
    ok := ReceiveShare(r, site);
    ReceivedToo(calls, made, r.staged);
    if ok {
      ok := site.Attempt();
    }
  }

  lemma ReceivedToo(calls: seq<Call>, made: Option<Id>, cid: Id)
    requires FillingCalls(calls, made)
    ensures FillingCalls(calls + [ReceiveCall(cid)], made)
  {
    if made.Some? {
      var i :| 0 <= i < |calls| && calls[i].MkdirCall?;
      assert (calls + [ReceiveCall(cid)])[i].MkdirCall?;
    }
  }

  method CreateStaging(r: CompletedPackReplacement, site: Site) returns (ok: bool, ghost made: Option<Id>)
    requires r.Sound(site) && site.log == [] && r.newCid == "" && r.staged == "" && r.received == {}
    requires !r.cutoverStarted && !r.finalized && !r.rolledBack
    modifies r`newCid, r`staged, site`objects, site`dirs, site`log
    ensures r.Sound(site) && !HasMove(site.log) && FillingCalls(site.log, made)
    ensures site.quiet ==> site.dirs == old(site.dirs)
    ensures site.quiet ==> MadeFolder(old(site.objects), site.objects, Node(r.libraryCid, r.newFolder, true), made)
    ensures r.staged == r.newCid && (ok <==> r.staged != "") && (site.quiet && ok ==> made == Some(r.staged))
  {
    var cid;
    ok, cid, made := site.CreateReplacementFolder(r.libraryCid, r.newFolder);
    assert site.log == site.log[|old(site.log)|..];
    if ok {
      if site.quiet {
        StagingCreated(r.Now(), old(site.objects), site.objects, cid);
      }
      r.newCid, r.staged := cid, cid;
    }
    TraceExtend([], site.log, r.InPlay());
    assert [] + site.log == site.log;
  }

  lemma StagingCreated(v: View, before: map<Id, Node>, after: map<Id, Node>, cid: Id)
    requires CloudSound(v, before) && !v.cutover && v.newCid == "" && v.names.staged == "" && v.received == {}
    requires Created(before, after, Node(v.names.library, v.names.newFolder, true), Some(cid)) && v.names.newFolder != v.names.oldFolder
    ensures CloudSound(v.(newCid := cid, names := v.names.(staged := cid)), after)
  {
    assert before[v.names.original].parent == v.names.library;
  }

  method ReceiveShare(r: CompletedPackReplacement, site: Site) returns (ok: bool)
    requires r.Sound(site) && r.received == {} && r.newCid == r.staged != ""
    requires !r.cutoverStarted && !r.finalized && !r.rolledBack && (site.quiet ==> r.staged in site.objects)
    requires site.quiet ==> forall id | id in site.objects :: site.objects[id].parent != r.staged
    modifies r`received, site`objects, site`dirs, site`log
    ensures r.Sound(site) && site.log == old(site.log) + [ReceiveCall(r.staged)] && (HasMove(site.log) ==> HasMove(old(site.log)))
    ensures site.quiet ==> site.dirs == old(site.dirs) && Received(old(site.objects), site.objects, r.staged, r.received)
  {
    ghost var added;
    ok, added := site.Receive(r.newCid);
    TraceAppend(old(site.log), ReceiveCall(r.staged), r.InPlay());
    if site.quiet {
      ShareReceived(r.Now(), old(site.objects), site.objects, added);
    }
    r.received := added;
  }

  lemma ShareReceived(v: View, before: map<Id, Node>, after: map<Id, Node>, added: set<Id>)
    requires CloudSound(v, before) && !v.cutover && v.received == {} && v.names.staged in before
    requires Received(before, after, v.names.staged, added)
    ensures CloudSound(v.(received := added), after)
  {
    assert before[v.names.original].parent == v.names.library;
    assert before[v.names.staged].parent == v.names.library;
  }

  datatype RunOutcome = NotStaged | Finished(newId: Id) | KeptOld | RecoveryRequired

  // A whole run: stage, let Emby learn of the copy, finalize, and clean up; then roll back again as
  // often as an operator cares to.
  method RunReplacement(site: Site, emby: R.Emby, libraryCid: Id, oldCid: Id, series: R.SeriesRow,
                        gaps: set<R.EpisodeNumber>, candidates: seq<Inspection>, retries: nat)
    returns (outcome: RunOutcome, r: CompletedPackReplacement?, ghost names: Names,
             ghost users: seq<string>, ghost catalog: map<Id, seq<R.Item>>, ghost data: R.UserDataTable)
    requires series.path != [] && oldCid != "" && site.log == []
    requires site.quiet ==> Resolved(site.objects, libraryCid, oldCid, series.path[|series.path| - 1])
    modifies site`objects, site`dirs, site`log, emby
    // Whatever the world does, the original is never renamed or deleted.
    ensures TraceSafe(site.log, names) && names.original == oldCid
    ensures outcome.NotStaged? ==>
              OriginalIntact(site, libraryCid, oldCid, series.path[|series.path| - 1],
                             old(At(site.dirs, InLibrary(series.path[|series.path| - 1]))))
    ensures outcome.NotStaged? && site.quiet ==>
              StagingLeft(old(site.objects), site.objects, old(site.dirs), site.dirs, libraryCid, series.path[|series.path| - 1], site.log)
    ensures outcome.NotStaged? <==> r == null
    // In particular no two library folders have the canonical name.
    ensures r != null ==> r.Sound(site)
    // The library-wide synchronisation may rewrite pointers in the original STRM tree; the directory stays.
    ensures outcome.KeptOld? ==> OriginalIntact(site, libraryCid, oldCid, r.oldFolder, r.original)
    ensures r != null && site.quiet ==>
              r.oldFolder == series.path[|series.path| - 1] && StaysDir(old(At(site.dirs, InLibrary(series.path[|series.path| - 1]))), r.original)
    ensures r != null ==> fresh(r) && r.oldCid == oldCid && r.oldPath == series.path && r.tmdb == series.tmdb && gaps <= r.expected
    ensures outcome.KeptOld? && site.quiet ==> names.staged !in site.objects
    // If a cutover was undone, every state recorded before it reads back equal.
    ensures outcome.KeptOld? && HasMove(site.log) ==>
              && UserStateRestored(r.oldPath, r.tmdb, r.states, emby)
              && OldStateTaken(r.oldSeriesId, r.oldPath, r.expected, r.states, users, catalog, data)
    ensures outcome.Finished? ==>
              && (site.quiet ==> RootsSwapped(r, site))
              && Complete(r, emby, outcome.newId, r.oldPath) && Matches(emby.series, r.tmdb) == 1
              && OldStateTaken(r.oldSeriesId, r.oldPath, r.expected, r.states, users, catalog, data)
              && StateCarriedOver(users, R.ItemsOf(catalog[r.oldSeriesId], r.oldSeriesId), data,
                                  R.ItemsOf(emby.catalog[outcome.newId], outcome.newId), emby.data)
    // Even an unfinished recovery has lost nothing.
    ensures outcome.RecoveryRequired? && site.quiet ==>
              && oldCid in site.objects && site.objects[oldCid].name == r.oldFolder
              && (site.objects[oldCid].parent == libraryCid || site.objects[oldCid].parent == r.quarantineCid)
              && (At(site.dirs, r.Canonical()) == r.original || At(site.dirs, r.Backup()) == r.original)
  {
    users, catalog, data := emby.users, emby.catalog, emby.data;
    r, names := StageCompletedPack(site, emby, libraryCid, oldCid, series, gaps, candidates);
    if r == null {
      return NotStaged, null, names, users, catalog, data;
    }
    var proceed := SyncStaged(r, site);
    if proceed {
      proceed := emby.RunLibraryScan();
    }
    users, catalog, data := emby.users, emby.catalog, emby.data;
    outcome := FinalizeOrRecover(r, site, emby, proceed, retries);
    names := r.InPlay();
  }

  // The rest of a run, from a staged copy on.
  method FinalizeOrRecover(r: CompletedPackReplacement, site: Site, emby: R.Emby, proceed: bool, retries: nat) returns (outcome: RunOutcome)
    requires r.Sound(site) && !r.cutoverStarted && !r.finalized && !r.rolledBack && !r.rollbackScanned
    modifies r, site`objects, site`dirs, site`log, emby
    ensures r.Sound(site) && !outcome.NotStaged? && r.staged == old(r.staged) && r.original == old(r.original) && old(r.expected) <= r.expected
    ensures outcome.KeptOld? ==> r.rolledBack
    ensures outcome.KeptOld? && HasMove(site.log) ==>
              && UserStateRestored(r.oldPath, r.tmdb, r.states, emby)
              && OldStateTaken(r.oldSeriesId, r.oldPath, r.expected, r.states, old(emby.users), old(emby.catalog), old(emby.data))
    ensures outcome.Finished? ==>
              && (site.quiet ==> RootsSwapped(r, site))
              && Complete(r, emby, outcome.newId, r.oldPath) && Matches(emby.series, r.tmdb) == 1
              && OldStateTaken(r.oldSeriesId, r.oldPath, r.expected, r.states, old(emby.users), old(emby.catalog), old(emby.data))
              && StateCarriedOver(old(emby.users), R.ItemsOf(old(emby.catalog)[r.oldSeriesId], r.oldSeriesId), old(emby.data),
                                  R.ItemsOf(emby.catalog[outcome.newId], outcome.newId), emby.data)
    ensures outcome.RecoveryRequired? ==> !r.finalized
  {
    ghost var users, catalog, data := emby.users, emby.catalog, emby.data;
    if proceed {
      var result := FinalizeCompletedPack(r, site, emby);
      if result.Replaced? {
        return Finished(result.newId);
      }
    }
    Recover(r, site, emby, retries + 1, users, catalog, data);
    outcome := if r.rolledBack then KeptOld else RecoveryRequired;
  }

  // The library's STRM tree is synchronised with the copy in it; the original is what that leaves.
  method SyncStaged(r: CompletedPackReplacement, site: Site) returns (ok: bool)
    requires r.Sound(site) && !r.cutoverStarted && !r.finalized
    requires site.quiet ==> At(site.dirs, r.Staging()).Some?
    modifies r`original, site`objects, site`dirs, site`log
    ensures r.Sound(site) && site.log == old(site.log)
    ensures site.quiet ==> StaysDir(old(r.original), r.original)
  {
    ok := site.SyncLibrary();
    r.original := At(site.dirs, r.Canonical());
  }

  // A cutover was undone up to a deletion of the copy that was carried out but reported a failure, so the copy's ID
  // was kept.
  const STUCK_TREE: Tree := Tree(1, [], true)
  const STUCK_OBJECTS: map<Id, Node> := map["22" := Node("1", "Show", true)]
  const STUCK_DIRS: map<StrmPath, Tree> := map[InLibrary("Show") := STUCK_TREE]
  const STUCK_NAMES: Names := Names("1", "22", "Show", "Show [new]", "333")
  const STUCK_VIEW: View := View(STUCK_NAMES, {}, "333", "4444", "", Some(2), None, Some(STUCK_TREE), true, false)
  const STUCK_LOG: seq<Call> :=
    [MoveCall("22", "4444"), RenameCall("333", "Show"), RenameCall("333", "Show [new]"), MoveCall("22", "1"),
     Listed("1", map["22" := Node("1", "Show", true), "333" := Node("1", "Show [new]", true)]), DeleteCall("333", true)]

  lemma StuckIsSafe()
    ensures TraceSafe(STUCK_LOG, STUCK_NAMES) && HasMove(STUCK_LOG)
  {
    assert STUCK_LOG[0].MoveCall?;
    forall i | 0 <= i < |STUCK_LOG|
      ensures SafeAt(STUCK_LOG, i, STUCK_NAMES)
    {
      if i == 5 {
        assert STUCK_LOG[..i][4] == STUCK_LOG[4];
      }
    }
  }

  lemma StuckIsSound()
    ensures CloudSound(STUCK_VIEW, STUCK_OBJECTS) && StrmSound(STUCK_VIEW, STUCK_DIRS)
  {
    assert forall id | id in STUCK_OBJECTS :: id == "22";
  }

  method StuckOperation() returns (r: CompletedPackReplacement, site: Site)
    ensures fresh(r) && fresh(site) && r.Sound(site) && HasMove(site.log)
    ensures Certain(site) && Stuck(r, site) && r.newCid != r.oldCid && !r.rolledBack && !r.finalized
  {
    StuckIsSafe();
    StuckIsSound();
    site := new Site(true, STUCK_OBJECTS, STUCK_DIRS);
    r := new CompletedPackReplacement("1", "series", "Show", "22", ["Show"], "Show [new]", "1", {}, 2, Some(STUCK_TREE));
    r.newCid, r.staged, r.quarantineCid, r.cutoverStarted := "333", "333", "4444", true;
    site.reliable, site.log := true, STUCK_LOG;
    assert r.Now() == STUCK_VIEW;
    assert r.InPlay() == STUCK_NAMES;
  }

  // No later rollback can finish it, however reliable the calls.
  method StuckRollback(emby: R.Emby) returns (r: CompletedPackReplacement, site: Site, result: RollbackResult)
    modifies emby
    ensures fresh(r) && fresh(site) && r.Sound(site)
    ensures result.Refused? || result.CallFailed?
  {
    r, site := StuckOperation();
    result := RollbackCompletedPack(r, site, emby);
  }

  // The deferred rollback, and any number of later ones.
  method Recover(r: CompletedPackReplacement, site: Site, emby: R.Emby, times: nat,
                 ghost users: seq<string>, ghost catalog: map<Id, seq<R.Item>>, ghost data: R.UserDataTable)
    requires r.Sound(site) && !r.finalized
    requires r.cutoverStarted || r.rollbackScanned ==>
               OldStateTaken(r.oldSeriesId, r.oldPath, r.expected, r.states, users, catalog, data)
    requires r.rollbackScanned ==> UserStateRestored(r.oldPath, r.tmdb, r.states, emby)
    modifies r`newCid, r`canonicalStrmInode, r`cutoverStarted, r`rolledBack, r`rollbackScanned
    modifies site`objects, site`dirs, site`log, emby
    ensures r.Sound(site) && !r.finalized
    ensures r.cutoverStarted || r.rollbackScanned ==>
              OldStateTaken(r.oldSeriesId, r.oldPath, r.expected, r.states, users, catalog, data)
    ensures r.rollbackScanned ==> UserStateRestored(r.oldPath, r.tmdb, r.states, emby)
  {
    for i := 0 to times
      invariant r.Sound(site) && !r.finalized
      invariant r.cutoverStarted || r.rollbackScanned ==>
                  OldStateTaken(r.oldSeriesId, r.oldPath, r.expected, r.states, users, catalog, data)
      invariant r.rollbackScanned ==> UserStateRestored(r.oldPath, r.tmdb, r.states, emby)
    {
      var rollback := RollbackCompletedPack(r, site, emby);
    }
  }
}
