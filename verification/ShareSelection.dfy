// What a user selects from a Quark share, and which objects in the target directory a save of it made.
module ShareSelection {
  import opened Common
  import opened Text

  datatype Entry = Entry(id: Id, revision: string, name: string, size: int, isDir: bool)

  datatype Selection = Selection(id: Id, revision: string, name: string, size: int)

  datatype File = File(id: Id, name: string, size: int, isFolder: bool, revision: string, sha1: string)

  // What a saved leaf is recognised by: its name and size.
  datatype Leaf = Leaf(name: string, size: int)

  function LeafOf(s: Selection): Leaf {
    Leaf(s.name, s.size)
  }

  function OutputNameOf(name: string): string {
    Lower(TrimSpace(name))
  }

  function OutputName(e: Entry): string {
    OutputNameOf(e.name)
  }

  /******* Selecting leaves of a fresh snapshot *******/

  predicate UniqueEntries(entries: seq<Entry>) {
    && (forall e | e in entries :: e.id != "")
    && forall i, j | 0 <= i < j < |entries| :: entries[i].id != entries[j].id
  }

  // `selected` is the file the snapshot has for each ID, in the caller's order, under distinct output names.
  predicate Selects(entries: seq<Entry>, ids: seq<Id>, selected: seq<Entry>) {
    && |selected| == |ids|
    && (forall i | 0 <= i < |ids| ::
          && TrimSpace(ids[i]) != "" && selected[i] in entries && selected[i].id == ids[i]
          && !selected[i].isDir && OutputName(selected[i]) != "")
    && forall i, j | 0 <= i < j < |ids| :: ids[i] != ids[j] && OutputName(selected[i]) != OutputName(selected[j])
  }

  // The snapshot by ID; `None` when an ID is empty or repeated.
  method IndexEntries(entries: seq<Entry>) returns (byId: Option<map<Id, Entry>>)
    ensures byId.Some? <==> UniqueEntries(entries)
    ensures byId.Some? ==> forall e | e in entries :: e.id in byId.value && byId.value[e.id] == e
    ensures byId.Some? ==> forall id | id in byId.value :: byId.value[id] in entries && byId.value[id].id == id
  {
    var index: map<Id, Entry> := map[];
    for k := 0 to |entries|
      invariant forall i | 0 <= i < k :: entries[i].id in index && index[entries[i].id] == entries[i]
      invariant forall id | id in index :: index[id] in entries[..k] && index[id].id == id
      invariant UniqueEntries(entries[..k])
    {
      assert entries[..k + 1] == entries[..k] + [entries[k]];
      assert entries[k] in entries;
      if entries[k].id == "" || entries[k].id in index {
        return None;
      }
      index := index[entries[k].id := entries[k]];
    }
    assert entries[..|entries|] == entries;
    byId := Some(index);
  }

  // What makes one more ID selectable after the ones already selected.
  predicate Selectable(byId: map<Id, Entry>, ids: seq<Id>, selected: seq<Entry>, id: Id) {
    && TrimSpace(id) != "" && id !in ids && id in byId && !byId[id].isDir && OutputName(byId[id]) != ""
    && forall e | e in selected :: OutputName(e) != OutputName(byId[id])
  }

  method SelectShareEntries(entries: seq<Entry>, ids: seq<Id>) returns (r: Option<seq<Entry>>)
    ensures r.Some? ==> ids != [] && UniqueEntries(entries) && Selects(entries, ids, r.value)
    ensures r.None? ==> ids == [] || !UniqueEntries(entries) || forall s :: !Selects(entries, ids, s)
  {
    if ids == [] {
      return None;
    }
    var byId := IndexEntries(entries);
    if byId.None? {
      return None;
    }
    var selected: seq<Entry> := [];
    for k := 0 to |ids|
      invariant Selects(entries, ids[..k], selected)
    {
      if !Selectable(byId.value, ids[..k], selected, ids[k]) {
        forall s | Selects(entries, ids, s)
          ensures false
        {
          SelectedIsSelectable(entries, byId.value, ids, s, k, selected);
          assert false;
        }
        return None;
      }
      assert ids[..k + 1] == ids[..k] + [ids[k]];
      selected := selected + [byId.value[ids[k]]];
    }
    assert ids[..|ids|] == ids;
    r := Some(selected);
  }

  lemma SelectedIsSelectable(entries: seq<Entry>, byId: map<Id, Entry>, ids: seq<Id>, s: seq<Entry>, k: nat, selected: seq<Entry>)
    requires UniqueEntries(entries) && Selects(entries, ids, s) && k < |ids| && Selects(entries, ids[..k], selected)
    requires forall e | e in entries :: e.id in byId && byId[e.id] == e
    ensures Selectable(byId, ids[..k], selected, ids[k])
  {
    SelectionIsForced(entries, ids, s, ids[..k], selected);
    assert s[k] in entries && byId[ids[k]] == s[k];
    forall e | e in selected
      ensures OutputName(e) != OutputName(s[k])
    {
      var i :| 0 <= i < |selected| && selected[i] == e;
      assert s[i] == e;
    }
  }

  lemma SelectionIsForced(entries: seq<Entry>, ids: seq<Id>, s: seq<Entry>, first: seq<Id>, t: seq<Entry>)
    requires UniqueEntries(entries) && Selects(entries, ids, s) && first <= ids && Selects(entries, first, t)
    ensures t <= s
  {
    forall i | 0 <= i < |t|
      ensures t[i] == s[i]
    {
      var j :| 0 <= j < |entries| && entries[j] == t[i];
      var k :| 0 <= k < |entries| && entries[k] == s[i];
      assert j == k;
    }
  }

  // Exact mode: nothing about a selected leaf changed since the user saw it.
  predicate Unchanged(selected: seq<Entry>, selections: seq<Selection>) {
    && |selected| == |selections|
    && forall i | 0 <= i < |selections| ::
         && selections[i].name != "" && selections[i].revision != ""
         && selected[i].name == selections[i].name && selected[i].size == selections[i].size
         && selected[i].revision == selections[i].revision
  }

  function Ids(selections: seq<Selection>): (ids: seq<Id>)
    ensures |ids| == |selections| && forall i | 0 <= i < |ids| :: ids[i] == selections[i].id
  {
    seq(|selections|, i requires 0 <= i < |selections| => selections[i].id)
  }

  method SelectShareSelections(entries: seq<Entry>, selections: seq<Selection>) returns (r: Option<seq<Entry>>)
    ensures r.Some? ==> UniqueEntries(entries) && Selects(entries, Ids(selections), r.value) && Unchanged(r.value, selections)
    ensures r.None? ==> selections == [] || !UniqueEntries(entries) ||
                        forall s :: !(Selects(entries, Ids(selections), s) && Unchanged(s, selections))
  {
    r := SelectShareEntries(entries, Ids(selections));
    if r.Some? {
      var selected := r.value;
      for i := 0 to |selected|
        invariant forall k | 0 <= k < i ::
                    && selections[k].name != "" && selections[k].revision != ""
                    && selected[k].name == selections[k].name && selected[k].size == selections[k].size
                    && selected[k].revision == selections[k].revision
      {
        var expected, entry := selections[i], selected[i];
        if expected.name == "" || expected.revision == "" || entry.name != expected.name || entry.size != expected.size ||
           entry.revision != expected.revision
        {
          forall s | Selects(entries, Ids(selections), s) && Unchanged(s, selections)
            ensures false
          {
            SelectionIsForced(entries, Ids(selections), s, Ids(selections), selected);
          }
          return None;
        }
      }
    }
  }

  /******* Resolving what was saved *******/

  predicate SavedAs(e: Entry, f: File) {
    f.name == e.name && f.isFolder == e.isDir && (e.isDir || f.size == e.size)
  }

  predicate Listed(files: seq<File>, id: Id) {
    exists f | f in files :: f.id == id
  }

  // The row a map built from the listing keeps for an ID: the last one.
  predicate LastRow(files: seq<File>, f: File) {
    exists k | 0 <= k < |files| :: files[k] == f && forall l | k < l < |files| :: files[l].id != f.id
  }

  // The IDs Quark reported are all in the target directory and look like the saved entries.
  ghost predicate Trusted(entries: seq<Entry>, after: seq<File>, providerIds: seq<Id>) {
    && |providerIds| == |entries|
    && forall i | 0 <= i < |entries| :: TrustedId(entries[i], after, providerIds[i])
  }

  ghost predicate TrustedId(e: Entry, after: seq<File>, id: Id) {
    exists f :: LastRow(after, f) && f.id == id && SavedAs(e, f)
  }

  // The files that were not there before and look like the saved entry.
  function Arrivals(e: Entry, before: seq<File>, after: seq<File>): (ids: seq<Id>)
    ensures forall id | id in ids :: exists f | f in after :: f.id == id && SavedAs(e, f) && !Listed(before, id)
  {
    if after == [] then [] else
      var rest := Arrivals(e, before, after[1..]);
      if SavedAs(e, after[0]) && !Listed(before, after[0].id) then
        assert after[0] in after;
        [after[0].id] + rest
      else rest
  }

  // The one arrival for each entry.
  predicate Unambiguous(entries: seq<Entry>, before: seq<File>, after: seq<File>, ids: seq<Id>) {
    |ids| == |entries| && forall i | 0 <= i < |entries| :: Arrivals(entries[i], before, after) == [ids[i]]
  }

  method ResolveSavedRoots(entries: seq<Entry>, before: seq<File>, after: seq<File>, providerIds: seq<Id>) returns (r: Option<seq<Id>>)
    ensures Trusted(entries, after, providerIds) ==> r == Some(providerIds)
    ensures !Trusted(entries, after, providerIds) && r.Some? ==> Unambiguous(entries, before, after, r.value)
    ensures !Trusted(entries, after, providerIds) && r.None? ==> forall ids :: !Unambiguous(entries, before, after, ids)
  {
    var byId: map<Id, File> := map[];
    for k := 0 to |after|
      invariant forall id | id in byId :: LastRow(after[..k], byId[id]) && byId[id].id == id
      invariant forall i | 0 <= i < k :: after[i].id in byId
    {
      RowAdded(after, k, byId);
      byId := byId[after[k].id := after[k]];
    }
    assert after[..|after|] == after;
    var valid := |providerIds| == |entries| &&
      forall i | 0 <= i < |entries| :: providerIds[i] in byId && SavedAs(entries[i], byId[providerIds[i]]);
    TrustedBy(entries, after, providerIds, byId);
    if valid {
      return Some(providerIds);
    }
    r := ResolveByArrival(entries, before, after);
  }

  method ResolveByArrival(entries: seq<Entry>, before: seq<File>, after: seq<File>) returns (r: Option<seq<Id>>)
    ensures r.Some? ==> Unambiguous(entries, before, after, r.value)
    ensures r.None? ==> forall ids :: !Unambiguous(entries, before, after, ids)
  {
    var resolved: seq<Id> := [];
    for i := 0 to |entries|
      invariant |resolved| == i && forall k | 0 <= k < i :: Arrivals(entries[k], before, after) == [resolved[k]]
    {
      var matches := FindArrivals(entries[i], before, after);
      if |matches| != 1 {
        return None;
      }
      resolved := resolved + matches;
    }
    r := Some(resolved);
  }

  method FindArrivals(e: Entry, before: seq<File>, after: seq<File>) returns (matches: seq<Id>)
    ensures matches == Arrivals(e, before, after)
  {
    var beforeIds := set f | f in before :: f.id;
    matches := [];
    for k := 0 to |after|
      invariant Arrivals(e, before, after) == matches + Arrivals(e, before, after[k..])
    {
      assert after[k..][1..] == after[k + 1..];
      if after[k].id !in beforeIds && SavedAs(e, after[k]) {
        matches := matches + [after[k].id];
      }
    }
    assert after[|after|..] == [];
  }

  lemma RowAdded(after: seq<File>, k: nat, byId: map<Id, File>)
    requires k < |after| && forall id | id in byId :: LastRow(after[..k], byId[id]) && byId[id].id == id
    ensures forall id | id in byId && id != after[k].id :: LastRow(after[..k + 1], byId[id])
    ensures LastRow(after[..k + 1], after[k])
  {
    var more := after[..k + 1];
    assert more == after[..k] + [after[k]];
    forall id | id in byId && id != after[k].id
      ensures LastRow(more, byId[id])
    {
      var i :| 0 <= i < k && after[..k][i] == byId[id] && forall l | i < l < k :: after[..k][l].id != id;
      assert more[i] == byId[id] && forall l | i < l < k + 1 :: more[l].id != id;
    }
    assert more[k] == after[k];
  }

  lemma TrustedBy(entries: seq<Entry>, after: seq<File>, providerIds: seq<Id>, byId: map<Id, File>)
    requires forall id | id in byId :: LastRow(after, byId[id]) && byId[id].id == id
    requires forall i | 0 <= i < |after| :: after[i].id in byId
    ensures Trusted(entries, after, providerIds) <==>
            |providerIds| == |entries| &&
            forall i | 0 <= i < |entries| :: providerIds[i] in byId && SavedAs(entries[i], byId[providerIds[i]])
  {
    forall i | 0 <= i < |providerIds| && |providerIds| == |entries|
      ensures TrustedId(entries[i], after, providerIds[i]) <==>
              providerIds[i] in byId && SavedAs(entries[i], byId[providerIds[i]])
    {
      if TrustedId(entries[i], after, providerIds[i]) {
        var f :| LastRow(after, f) && f.id == providerIds[i] && SavedAs(entries[i], f);
        assert f in after;
        OneLastRow(after, f, byId[f.id]);
      }
    }
  }

  lemma OneLastRow(files: seq<File>, f: File, g: File)
    requires LastRow(files, f) && LastRow(files, g) && f.id == g.id
    ensures f == g
  {
    var k :| 0 <= k < |files| && files[k] == f && forall l | k < l < |files| :: files[l].id != f.id;
    var m :| 0 <= m < |files| && files[m] == g && forall l | m < l < |files| :: files[l].id != g.id;
    assert k == m;
  }

  predicate UniqueFiles(files: seq<File>) {
    forall i, j | 0 <= i < j < |files| :: files[i].id != files[j].id
  }

  ghost predicate Resolved(entries: seq<Entry>, before: seq<File>, after: seq<File>, providerIds: seq<Id>, ids: seq<Id>) {
    if Trusted(entries, after, providerIds) then ids == providerIds else Unambiguous(entries, before, after, ids)
  }

  // Every resolved root is listed in the target directory and looks like its entry.
  lemma ResolvedIsListed(entries: seq<Entry>, before: seq<File>, after: seq<File>, providerIds: seq<Id>, ids: seq<Id>, i: nat) returns (f: File)
    requires Resolved(entries, before, after, providerIds, ids) && i < |entries|
    ensures |ids| == |entries| && f in after && f.id == ids[i] && SavedAs(entries[i], f)
  {
    if Trusted(entries, after, providerIds) {
      assert TrustedId(entries[i], after, providerIds[i]);
      f :| LastRow(after, f) && f.id == providerIds[i] && SavedAs(entries[i], f);
    } else {
      assert ids[i] in Arrivals(entries[i], before, after);
      f :| f in after && f.id == ids[i] && SavedAs(entries[i], f);
    }
  }

  // Roots resolved for a valid selection are pairwise distinct when the listing has unique IDs.
  lemma RootsAreDistinct(entries: seq<Entry>, picked: seq<Id>, selected: seq<Entry>, before: seq<File>, after: seq<File>, providerIds: seq<Id>,
                         ids: seq<Id>, i: nat, j: nat)
    requires Selects(entries, picked, selected) && UniqueFiles(after) && Resolved(selected, before, after, providerIds, ids)
    requires i < j < |selected|
    ensures |ids| == |selected| && ids[i] != ids[j]
  {
    var f := ResolvedIsListed(selected, before, after, providerIds, ids, i);
    var g := ResolvedIsListed(selected, before, after, providerIds, ids, j);
    assert OutputName(selected[i]) != OutputName(selected[j]);
  }

  predicate DistinctRoots(ids: seq<Id>) {
    forall i, j | 0 <= i < j < |ids| :: ids[i] != ids[j]
  }

  // Trusted IDs never repeat: the last row of an ID has one name.
  lemma TrustedAreDistinct(entries: seq<Entry>, picked: seq<Id>, selected: seq<Entry>, after: seq<File>, providerIds: seq<Id>)
    requires Selects(entries, picked, selected) && Trusted(selected, after, providerIds)
    ensures DistinctRoots(providerIds)
  {
    forall i, j | 0 <= i < j < |providerIds|
      ensures providerIds[i] != providerIds[j]
    {
      assert TrustedId(selected[i], after, providerIds[i]) && TrustedId(selected[j], after, providerIds[j]);
      var f :| LastRow(after, f) && f.id == providerIds[i] && SavedAs(selected[i], f);
      var g :| LastRow(after, g) && g.id == providerIds[j] && SavedAs(selected[j], g);
      assert OutputName(selected[i]) != OutputName(selected[j]);
      if f.id == g.id {
        OneLastRow(after, f, g);
        assert false;
      }
    }
  }

  // Row k is a new arrival for the entry.
  predicate ArrivesAt(e: Entry, before: seq<File>, after: seq<File>, k: nat)
    requires k < |after|
  {
    SavedAs(e, after[k]) && !Listed(before, after[k].id)
  }

  lemma {:induction false} NoArrival(e: Entry, before: seq<File>, after: seq<File>)
    ensures Arrivals(e, before, after) == [] <==> forall k: nat | k < |after| :: !ArrivesAt(e, before, after, k)
  {
    if after != [] {
      var rest := after[1..];
      NoArrival(e, before, rest);
      if !ArrivesAt(e, before, after, 0) && Arrivals(e, before, rest) == [] {
        forall k: nat | k < |after|
          ensures !ArrivesAt(e, before, after, k)
        {
          assert k > 0 ==> !ArrivesAt(e, before, rest, k - 1);
        }
      }
      if k: nat :| k < |rest| && ArrivesAt(e, before, rest, k) {
        assert ArrivesAt(e, before, after, k + 1);
      }
    }
  }

  // An entry has one arrival if and only if exactly one row is a new arrival for it.
  lemma {:induction false} OneArrivalIff(e: Entry, before: seq<File>, after: seq<File>, id: Id)
    ensures Arrivals(e, before, after) == [id] <==> exists k: nat | k < |after| :: OnlyArrival(e, before, after, k, id)
  {
    if after != [] {
      var rest := after[1..];
      NoArrival(e, before, rest);
      OneArrivalIff(e, before, rest, id);
      if ArrivesAt(e, before, after, 0) {
        OnlyFirst(e, before, after);
        FirstOnly(e, before, after, id);
        var first, more := [after[0].id], Arrivals(e, before, rest);
        assert Arrivals(e, before, after) == first + more;
        OneElement(after[0].id, more, id);
      } else {
        FirstIsNone(e, before, after, id);
      }
    }
  }

  lemma OneElement(x: Id, more: seq<Id>, id: Id)
    ensures [x] + more == [id] <==> x == id && more == []
  {
    if [x] + more == [id] {
      assert |[x] + more| == 1 && ([x] + more)[0] == x;
    }
  }

  lemma FirstOnly(e: Entry, before: seq<File>, after: seq<File>, id: Id)
    requires after != [] && ArrivesAt(e, before, after, 0)
    ensures (exists k: nat | k < |after| :: OnlyArrival(e, before, after, k, id)) <==> OnlyArrival(e, before, after, 0, id)
  {
  }

  lemma OnlyFirst(e: Entry, before: seq<File>, after: seq<File>)
    requires after != []
    ensures (forall l: nat | l < |after| && l != 0 :: !ArrivesAt(e, before, after, l)) <==>
            forall l: nat | l < |after[1..]| :: !ArrivesAt(e, before, after[1..], l)
  {
    var rest := after[1..];
    if l: nat :| l < |rest| && ArrivesAt(e, before, rest, l) {
      assert ArrivesAt(e, before, after, l + 1);
    }
    if l: nat :| l < |after| && l != 0 && ArrivesAt(e, before, after, l) {
      assert ArrivesAt(e, before, rest, l - 1);
    }
  }

  predicate OnlyArrival(e: Entry, before: seq<File>, after: seq<File>, k: nat, id: Id)
    requires k < |after|
  {
    ArrivesAt(e, before, after, k) && after[k].id == id && forall l: nat | l < |after| && l != k :: !ArrivesAt(e, before, after, l)
  }

  lemma FirstIsNone(e: Entry, before: seq<File>, after: seq<File>, id: Id)
    requires after != [] && !ArrivesAt(e, before, after, 0)
    ensures (exists k: nat | k < |after| :: OnlyArrival(e, before, after, k, id)) <==>
            exists k: nat | k < |after[1..]| :: OnlyArrival(e, before, after[1..], k, id)
  {
    var rest := after[1..];
    if k: nat :| k < |rest| && OnlyArrival(e, before, rest, k, id) {
      forall l: nat | l < |after| && l != k + 1
        ensures !ArrivesAt(e, before, after, l)
      {
        assert l > 0 ==> !ArrivesAt(e, before, rest, l - 1);
      }
      assert OnlyArrival(e, before, after, k + 1, id);
    }
    if k: nat :| k < |after| && OnlyArrival(e, before, after, k, id) {
      forall l: nat | l < |rest| && l != k - 1
        ensures !ArrivesAt(e, before, rest, l)
      {
        assert !ArrivesAt(e, before, after, l + 1);
      }
      assert OnlyArrival(e, before, rest, k - 1, id);
    }
  }

  // An ID that is new in the target directory is listed there with the looks of two of the selected entries.
  predicate SharesArrival(selected: seq<Entry>, before: seq<File>, after: seq<File>, i: nat, j: nat, k: nat, l: nat)
    requires i < |selected| && j < |selected| && k < |after| && l < |after|
  {
    i != j && after[k].id == after[l].id && ArrivesAt(selected[i], before, after, k) && ArrivesAt(selected[j], before, after, l)
  }

  predicate TwoLooks(selected: seq<Entry>, before: seq<File>, after: seq<File>) {
    exists i: nat, j: nat, k: nat, l: nat | i < |selected| && j < |selected| && k < |after| && l < |after| ::
      SharesArrival(selected, before, after, i, j, k, l)
  }

  // Roots resolved for a valid selection are pairwise distinct if and only if the reported IDs were trusted or no new
  // ID is listed with the looks of two selected entries.
  lemma RootsAreDistinctIff(entries: seq<Entry>, picked: seq<Id>, selected: seq<Entry>, before: seq<File>, after: seq<File>,
                            providerIds: seq<Id>, ids: seq<Id>)
    requires Selects(entries, picked, selected) && Resolved(selected, before, after, providerIds, ids)
    ensures DistinctRoots(ids) <==> Trusted(selected, after, providerIds) || !TwoLooks(selected, before, after)
  {
    if Trusted(selected, after, providerIds) {
      TrustedAreDistinct(entries, picked, selected, after, providerIds);
    } else {
      if TwoLooks(selected, before, after) {
        var i: nat, j: nat, k: nat, l: nat :|
          i < |selected| && j < |selected| && k < |after| && l < |after| && SharesArrival(selected, before, after, i, j, k, l);
        OneArrivalIff(selected[i], before, after, ids[i]);
        OneArrivalIff(selected[j], before, after, ids[j]);
        assert ids[i] == after[k].id && ids[j] == after[l].id;
      }
      if i, j :| 0 <= i < j < |ids| && ids[i] == ids[j] {
        OneArrivalIff(selected[i], before, after, ids[i]);
        OneArrivalIff(selected[j], before, after, ids[j]);
        var k: nat :| k < |after| && OnlyArrival(selected[i], before, after, k, ids[i]);
        var l: nat :| l < |after| && OnlyArrival(selected[j], before, after, l, ids[j]);
        assert SharesArrival(selected, before, after, i, j, k, l);
      }
    }
  }

  // No other row with this ID looks the same.
  predicate OnlyLook(after: seq<File>, k: nat)
    requires k < |after|
  {
    forall l: nat | l < |after| && l != k && after[l].id == after[k].id && !after[l].isFolder ::
      after[l].name != after[k].name || after[l].size != after[k].size
  }

  // Two files of one ID that could both be selected: their output names differ, and neither look is ambiguous.
  predicate SplitsAt(after: seq<File>, k: nat, l: nat)
    requires k < |after| && l < |after|
  {
    && after[k].id == after[l].id && !after[k].isFolder && !after[l].isFolder
    && OutputNameOf(after[k].name) != "" && OutputNameOf(after[l].name) != "" && OutputNameOf(after[k].name) != OutputNameOf(after[l].name)
    && OnlyLook(after, k) && OnlyLook(after, l)
  }

  predicate SplitsAnId(after: seq<File>) {
    exists k: nat, l: nat | k < |after| && l < |after| :: SplitsAt(after, k, l)
  }

  // A valid selection of which two files become one root.
  ghost predicate MergesRoots(after: seq<File>, entries: seq<Entry>, picked: seq<Id>, selected: seq<Entry>, before: seq<File>,
                              providerIds: seq<Id>, ids: seq<Id>)
  {
    && UniqueEntries(entries) && Selects(entries, picked, selected) && Resolved(selected, before, after, providerIds, ids)
    && !DistinctRoots(ids)
  }

  // Every valid selection resolves to distinct roots in a listing if and only if the listing shows no ID as two
  // files that could both be selected.
  lemma ListingMergesIff(after: seq<File>)
    ensures SplitsAnId(after) <==> exists entries, picked, selected, before, providerIds, ids ::
              MergesRoots(after, entries, picked, selected, before, providerIds, ids)
  {
    if SplitsAnId(after) {
      var k: nat, l: nat :| k < |after| && l < |after| && SplitsAt(after, k, l);
      SplitMerges(after, k, l);
    }
    if entries, picked, selected, before, providerIds, ids :| MergesRoots(after, entries, picked, selected, before, providerIds, ids) {
      MergeSplits(after, entries, picked, selected, before, providerIds, ids);
    }
  }

  lemma MergeSplits(after: seq<File>, entries: seq<Entry>, picked: seq<Id>, selected: seq<Entry>, before: seq<File>,
                    providerIds: seq<Id>, ids: seq<Id>)
    requires MergesRoots(after, entries, picked, selected, before, providerIds, ids)
    ensures SplitsAnId(after)
  {
    if Trusted(selected, after, providerIds) {
      TrustedAreDistinct(entries, picked, selected, after, providerIds);
      assert false;
    } else {
      var i, j :| 0 <= i < j < |ids| && ids[i] == ids[j];
      OneArrivalIff(selected[i], before, after, ids[i]);
      OneArrivalIff(selected[j], before, after, ids[j]);
      var k: nat :| k < |after| && OnlyArrival(selected[i], before, after, k, ids[i]);
      var l: nat :| l < |after| && OnlyArrival(selected[j], before, after, l, ids[j]);
      OnlyArrivalOnlyLook(selected[i], before, after, k, ids[i]);
      OnlyArrivalOnlyLook(selected[j], before, after, l, ids[j]);
      assert OutputName(selected[i]) == OutputNameOf(after[k].name) && OutputName(selected[j]) == OutputNameOf(after[l].name);
      assert SplitsAt(after, k, l);
    }
  }

  lemma OnlyArrivalOnlyLook(e: Entry, before: seq<File>, after: seq<File>, k: nat, id: Id)
    requires k < |after| && !e.isDir && OnlyArrival(e, before, after, k, id)
    ensures OnlyLook(after, k) && !after[k].isFolder && after[k].name == e.name
  {
    forall l: nat | l < |after| && l != k && after[l].id == after[k].id && !after[l].isFolder
      ensures after[l].name != after[k].name || after[l].size != after[k].size
    {
      assert !ArrivesAt(e, before, after, l);
    }
  }

  // The rows of other IDs.
  function Others(files: seq<File>, id: Id): (r: seq<File>)
    ensures forall f | f in r :: f in files && f.id != id
    ensures forall f | f in files && f.id != id :: f in r
  {
    if files == [] then [] else (if files[0].id != id then [files[0]] else []) + Others(files[1..], id)
  }

  lemma PairIsSelected(e: Entry, f: Entry)
    requires e.id == "1" && f.id == "2" && !e.isDir && !f.isDir
    requires OutputName(e) != "" && OutputName(f) != "" && OutputName(e) != OutputName(f)
    ensures UniqueEntries([e, f]) && Selects([e, f], ["1", "2"], [e, f])
  {
    assert FirstInk("1", 0) == 0 && FirstInk("2", 0) == 0;
    assert TrimSpace("1") == "1" && TrimSpace("2") == "2";
  }

  lemma SplitMerges(after: seq<File>, k: nat, l: nat)
    requires k < |after| && l < |after| && SplitsAt(after, k, l)
    ensures exists entries, picked, selected, before, providerIds, ids ::
              MergesRoots(after, entries, picked, selected, before, providerIds, ids)
  {
    var id := after[k].id;
    var e, f := Entry("1", "r", after[k].name, after[k].size, false), Entry("2", "r", after[l].name, after[l].size, false);
    PairArrives(e, f, after, k, l);
    PairIsSelected(e, f);
    PairMerges(after, e, f, Others(after, id), id);
  }

  lemma PairArrives(e: Entry, f: Entry, after: seq<File>, k: nat, l: nat)
    requires k < |after| && l < |after| && SplitsAt(after, k, l) && !e.isDir && !f.isDir
    requires e.name == after[k].name && e.size == after[k].size && f.name == after[l].name && f.size == after[l].size
    ensures Unambiguous([e, f], Others(after, after[k].id), after, [after[k].id, after[k].id])
  {
    LookArrives(e, after, k);
    LookArrives(f, after, l);
  }

  lemma PairMerges(after: seq<File>, e: Entry, f: Entry, before: seq<File>, id: Id)
    requires UniqueEntries([e, f]) && Selects([e, f], ["1", "2"], [e, f]) && Unambiguous([e, f], before, after, [id, id])
    ensures MergesRoots(after, [e, f], ["1", "2"], [e, f], before, [], [id, id])
  {
    assert [id, id][0] == [id, id][1];
  }

  // When everything else was there before, a row whose look is the only one of its ID arrives alone.
  lemma LookArrives(e: Entry, after: seq<File>, k: nat)
    requires k < |after| && OnlyLook(after, k) && !after[k].isFolder && !e.isDir && e.name == after[k].name && e.size == after[k].size
    ensures Arrivals(e, Others(after, after[k].id), after) == [after[k].id]
  {
    var id := after[k].id;
    var before := Others(after, id);
    OneArrivalIff(e, before, after, id);
    forall l: nat | l < |after| && l != k
      ensures !ArrivesAt(e, before, after, l)
    {
      assert after[l] in after;
    }
    assert OnlyArrival(e, before, after, k, id);
  }

  // A listing that shows one ID under two names makes two selected files one root.
  method RepeatedIdMergesRoots() returns (selected: seq<Entry>, after: seq<File>, r: Option<seq<Id>>)
    ensures |selected| == 2 && selected[0].name != selected[1].name && !selected[0].isDir && !selected[1].isDir
    ensures r == Some(["x", "x"]) && Resolved(selected, [], after, [], r.value)
  {
    selected := [Entry("1", "r", "a", 1, false), Entry("2", "r", "b", 1, false)];
    after := [File("x", "a", 1, false, "r", ""), File("x", "b", 1, false, "r", "")];
    assert after[1..] == [after[1]] && after[1..][1..] == [];
    assert Unambiguous(selected, [], after, ["x", "x"]);
    r := ResolveSavedRoots(selected, [], after, []);
    assert r.Some?;
    assert Arrivals(selected[0], [], after) == ["x"] && Arrivals(selected[1], [], after) == ["x"];
    assert r.value == ["x", "x"];
  }
}
