// The file that remembers which segments of a transfer are done. A save replaces the file by a synced temporary
// file and then syncs the directory; a crash may undo a rename or a removal whose directory was not synced since.
module FileCheckpoint {
  import opened Common

  datatype Identity = Identity(version: int, sourceKey: string, sourceRevision: string, size: int, segmentSize: int)

  type Segments = map<int, int>

  datatype Stored = Stored(identity: Identity, segments: Segments)

  // A load reads no more than this much.
  const READ_LIMIT := 0x10_0000

  class Checkpoint {
    const identity: Identity
    // How long a state is once encoded.
    const length: Stored -> nat
    // While set, every file system call succeeds.
    var reliable: bool
    // The file, and what it may be after a crash.
    var file: Option<Stored>
    var durable: set<Option<Stored>>
    var loaded: bool
    var segments: Segments
    // What the file was found as, and what every save and removal since meant it to be; the last of them known to
    // survive a crash.
    ghost var history: seq<Option<Stored>>
    ghost var safe: nat

    constructor (identity: Identity, length: Stored -> nat, file: Option<Stored>)
      ensures Valid() && this.identity == identity && this.length == length && this.file == file && !loaded && history == [file]
    {
      this.identity, this.length, this.file := identity, length, file;
      reliable, durable, loaded, segments := false, {file}, false, map[];
      history, safe := [file], 0;
    }

    ghost predicate Valid()
      reads this
    {
      && safe < |history| && file in durable
      && (loaded ==> history[|history| - 1] == Some(Stored(identity, segments)) || (history[|history| - 1] == None && segments == map[]))
      && (!loaded ==> file == history[|history| - 1])
      && forall d | d in durable :: d in history[safe..]
    }

    // A state a load accepts.
    predicate Readable(s: Stored) {
      s.identity == identity && length(s) <= READ_LIMIT
    }

    // loadLocked. Another identity is refused, and so is a state too long to be read back.
    method Load() returns (ok: bool)
      requires Valid()
      modifies this`loaded, this`segments
      ensures Valid() && loaded == (ok || old(loaded)) && (old(loaded) ==> ok && segments == old(segments))
      ensures !old(loaded) && ok ==> segments == if file.Some? then file.value.segments else map[]
      ensures !old(loaded) && file.Some? && !Readable(file.value) ==> !ok
      ensures reliable && !old(loaded) && (file.None? || Readable(file.value)) ==> ok
    {
      if loaded {
        return true;
      }
      segments := map[];
      var readable: bool := *;
      if !readable && !reliable {
        return false;
      }
      if file.Some? {
        if !Readable(file.value) {
          return false;
        }
        segments := file.value.segments;
      }
      loaded, ok := true, true;
    }

    // The map a save adds to: the one in memory, or else the one on file.
    function Known(): Segments
      reads this
    {
      if loaded then segments else if file.Some? then file.value.segments else map[]
    }

    // Acknowledged saves survive any crash. A save that fails after the load is in memory all the same, and the
    // file may hold it; one whose load fails leaves no trace.
    method Save(index: int, size: int) returns (ok: bool)
      requires Valid()
      modifies this`file, this`durable, this`loaded, this`segments, this`history, this`safe
      ensures Valid()
      ensures loaded ==> segments == old(Known())[index := size] && history == old(history) + [Some(Stored(identity, segments))]
      ensures !loaded ==> !ok && !old(loaded) && history == old(history) && file == old(file) && durable == old(durable)
      ensures ok ==> file == Some(Stored(identity, segments)) && durable == {file} && safe == |history| - 1
      ensures !ok ==> safe == old(safe)
      ensures !old(loaded) && old(file).Some? && !Readable(old(file).value) ==> !loaded
      ensures reliable && (old(loaded) || old(file).None? || Readable(old(file).value)) ==> ok
    {
      ok := Load();
      if !ok {
        return;
      }
      segments := segments[index := size];
      ghost var next := Some(Stored(identity, segments));
      assert (history + [next])[safe..] == history[safe..] + [next];
      history := history + [next];
      ok := Persist();
    }

    // persistLocked: temporary file, rename, directory sync, each of which may fail.
    method Persist() returns (ok: bool)
      requires Valid() && loaded && history[|history| - 1] == Some(Stored(identity, segments))
      modifies this`file, this`durable, this`safe
      ensures Valid() && (!ok ==> safe == old(safe))
      ensures ok ==> file == Some(Stored(identity, segments)) && durable == {file} && safe == |history| - 1
      ensures reliable ==> ok
    {
      var written: bool, renamed: bool, synced: bool := *, *, *;
      if !(written && renamed) && !reliable {
        return false;
      }
      file := Some(Stored(identity, segments));
      assert file == history[safe..][|history[safe..]| - 1];
      durable := durable + {file};
      if !synced && !reliable {
        return false;
      }
      durable := {file};
      safe := |history| - 1;
      ok := true;
    }

    method Remove() returns (ok: bool)
      requires Valid()
      modifies this`file, this`durable, this`loaded, this`segments, this`history
      ensures Valid() && safe == old(safe)
      ensures ok ==> file == None && !loaded && history == old(history) + [None]
      ensures !ok ==> file == old(file) && durable == old(durable) && history == old(history) && loaded == old(loaded) && segments == old(segments)
      ensures reliable ==> ok
    {
      var removed: bool := *;
      if !removed && !reliable {
        return false;
      }
      assert (history + [None])[safe..] == history[safe..] + [None];
      history := history + [None];
      file, durable := None, durable + {None};
      loaded, segments := false, map[];
      ok := true;
    }

    // The process dies, whatever it was doing, and the next one finds one of the contents meant since the last one
    // known to survive: never an older one, and never a mixture.
    method Crash()
      requires Valid()
      modifies this`file, this`durable, this`loaded, this`segments, this`history, this`safe
      ensures Valid() && !loaded && history == [file]
      ensures file in old(history)[old(safe)..]
    {
      var left :| left in durable;
      file := left;
      durable, loaded, segments := {file}, false, map[];
      history, safe := [file], 0;
    }
  }

  // After a crash the acknowledged state is found again, and a new load reads it back if and only if it is short
  // enough.
  method SaveCrashLoad(c: Checkpoint, index: int, size: int) returns (saved: bool, ok: bool, before: Segments)
    requires c.Valid()
    modifies c
    ensures saved ==> index in before && before[index] == size
    ensures saved ==> (ok <==> c.length(Stored(c.identity, before)) <= READ_LIMIT)
    ensures saved && ok ==> c.segments == before
  {
    ok := false;
    saved := c.Save(index, size);
    before := c.segments;
    if saved {
      c.Crash();
      c.reliable := true;
      ok := c.Load();
    }
  }

  // The map after some saves.
  function Applied(base: Segments, saves: seq<(int, int)>): Segments {
    if saves == [] then base
    else
      var last := saves[|saves| - 1];
      Applied(base, saves[..|saves| - 1])[last.0 := last.1]
  }

  // The contents the saves from `first` to `end` mean the file to have.
  function Meant(identity: Identity, base: Segments, saves: seq<(int, int)>, first: nat, end: nat): (r: seq<Option<Stored>>)
    requires first <= end <= |saves|
    ensures |r| == end - first
  {
    if end == first then []
    else Meant(identity, base, saves, first, end - 1) + [Some(Stored(identity, Applied(base, saves[first..end])))]
  }

  lemma {:induction false} MeantAt(identity: Identity, base: Segments, saves: seq<(int, int)>, first: nat, end: nat, i: nat)
    requires first <= i < end <= |saves|
    ensures Meant(identity, base, saves, first, end)[i - first] == Some(Stored(identity, Applied(base, saves[first..i + 1])))
  {
    if i < end - 1 {
      MeantAt(identity, base, saves, first, end - 1, i);
    }
  }

  lemma AppliedGrows(base: Segments, saves: seq<(int, int)>, first: nat, i: nat)
    requires first <= i < |saves|
    ensures Applied(base, saves[first..i + 1]) == Applied(base, saves[first..i])[saves[i].0 := saves[i].1]
  {
    assert saves[first..i + 1][..i - first] == saves[first..i];
  }

  // Any saves, acknowledged or failed. Those before `first` failed to load the file and left no trace; `ack` of the
  // saves were attempted when the last one was acknowledged.
  method SaveAll(c: Checkpoint, saves: seq<(int, int)>) returns (acked: seq<bool>, first: nat, ack: nat)
    requires c.Valid()
    modifies c`file, c`durable, c`loaded, c`segments, c`history, c`safe
    ensures c.Valid() && |acked| == |saves| && first <= |saves| && (ack == 0 || first < ack <= |saves|)
    ensures forall k | 0 <= k < |saves| && acked[k] :: first < k + 1 <= ack
    ensures c.history == old(c.history) + Meant(c.identity, old(c.Known()), saves, first, |saves|)
    ensures c.safe == if ack == 0 then old(c.safe) else |old(c.history)| + ack - first - 1
  {
    ghost var base, start, meant := c.Known(), c.history, [];
    acked, first, ack := [], 0, 0;
    for i := 0 to |saves|
      invariant c.Valid() && |acked| == i && first <= i && (ack == 0 || first < ack <= i)
      invariant if c.loaded then c.segments == Applied(base, saves[first..i]) else first == i && c.Known() == base
      invariant meant == Meant(c.identity, base, saves, first, i) && c.history == start + meant
      invariant forall k | 0 <= k < i && acked[k] :: first < k + 1 <= ack
      invariant c.safe == if ack == 0 then old(c.safe) else |start| + ack - first - 1
    {
      var saved := c.Save(saves[i].0, saves[i].1);
      if !c.loaded {
        first := i + 1;
      } else {
        AppliedGrows(base, saves, first, i);
        meant := meant + [Some(Stored(c.identity, c.segments))];
        assert c.history == start + meant;
        if saved {
          ack := i + 1;
        }
      }
      acked := acked + [saved];
    }
  }

  // Then a crash and a load. What survives are the saves up to `last`, at or after every acknowledged one; if none
  // was made in memory, what a crash could leave before. A load reads that map back, if it is short enough.
  method SavesThenCrash(c: Checkpoint, saves: seq<(int, int)>) returns (acked: seq<bool>, ghost first: nat, ghost last: nat, ok: bool)
    requires c.Valid()
    modifies c
    ensures c.Valid() && |acked| == |saves| && first <= last <= |saves|
    ensures forall k | 0 <= k < |saves| && acked[k] :: first < k + 1 <= last
    ensures last > first ==> c.file == Some(Stored(c.identity, Applied(old(c.Known()), saves[first..last])))
    ensures last == first ==> c.file in old(c.history)[old(c.safe)..]
    ensures ok <==> c.file.None? || c.Readable(c.file.value)
    ensures ok ==> c.segments == if c.file.Some? then c.file.value.segments else map[]
  {
    var ack;
    acked, first, ack := SaveAll(c, saves);
    ghost var n := |old(c.history)|;
    ghost var history, safe := c.history, c.safe;
    c.Crash();
    ghost var k :| safe <= k < |history| && history[k] == c.file;
    if k < n {
      last := first;
      assert old(c.history)[old(c.safe)..][k - old(c.safe)] == c.file;
    } else {
      last := first + k - n + 1;
      MeantAt(c.identity, old(c.Known()), saves, first, |saves|, last - 1);
    }
    c.reliable := true;
    ok := c.Load();
  }
}
