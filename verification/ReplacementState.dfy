// Emby's side of a replacement: the item inventory of a Series, the per-user playback state
// of its items, and the snapshot and restore of that state.
module ReplacementState {
  import opened Common

  datatype ItemKind = Season | Episode | Other

  // An item path as its components; the empty path means Emby reported none.
  datatype Item = Item(
    id: Id, kind: ItemKind, path: seq<string>, seriesId: Id,
    index: Option<int>, indexEnd: Option<int>, parentIndex: Option<int>, isMissing: bool)

  datatype SeriesRow = SeriesRow(id: Id, isSeries: bool, path: seq<string>, tmdb: string)

  datatype EpisodeNumber = EpisodeNumber(season: int, episode: int)

  datatype ItemKey = SeriesKey | SeasonKey(number: int) | EpisodeKey(episode: EpisodeNumber)

  datatype UserData = UserData(
    played: bool, playCount: int, isFavorite: bool, positionTicks: int,
    lastPlayed: Option<string>, rating: Option<real>, likes: Option<bool>)

  datatype UserState = UserState(user: string, key: ItemKey, data: UserData)

  datatype RestoreResult = Restored | NoDestination | WriteFailed | ReadFailed | Mismatch

  type UserDataTable = map<(string, Id), UserData>

  /******* Item inventories *******/

  // The item belongs below the Series folder and carries a usable number.
  predicate Bound(item: Item, seriesId: Id, seriesPath: seq<string>) {
    && item.id != ""
    && (item.path != [] ==> seriesPath < item.path)
    && (item.seriesId == "" || item.seriesId == seriesId)
    && item.index.Some? && item.index.value >= 0
    && match item.kind
       case Season => true
       case Episode =>
         && item.parentIndex.Some? && item.parentIndex.value >= 0
         && item.index.value > 0
         && (item.indexEnd.Some? ==> item.indexEnd.value == item.index.value)
       case Other => false
  }

  function NumberOf(number: Option<int>): int {
    if number.Some? then number.value else 0
  }

  function EpisodeOf(item: Item): EpisodeNumber {
    EpisodeNumber(NumberOf(item.parentIndex), NumberOf(item.index))
  }

  function KeyOf(item: Item): ItemKey {
    if item.kind.Season? then SeasonKey(NumberOf(item.index)) else EpisodeKey(EpisodeOf(item))
  }

  // Virtual episodes keep user state but never count as physical coverage.
  predicate Physical(item: Item) {
    item.kind.Episode? && !item.isMissing && item.path != []
  }

  function ItemsOf(rows: seq<Item>, seriesId: Id): map<ItemKey, Id> {
    if rows == [] then map[SeriesKey := seriesId]
    else ItemsOf(rows[..|rows| - 1], seriesId)[KeyOf(rows[|rows| - 1]) := rows[|rows| - 1].id]
  }

  function EpisodesOf(rows: seq<Item>): set<EpisodeNumber> {
    if rows == [] then {}
    else EpisodesOf(rows[..|rows| - 1]) +
         if Physical(rows[|rows| - 1]) then {EpisodeOf(rows[|rows| - 1])} else {}
  }

  // Every row is bound to the Series and no identity repeats.
  ghost predicate WellFormed(rows: seq<Item>, seriesId: Id, seriesPath: seq<string>) {
    rows != [] ==>
      && WellFormed(rows[..|rows| - 1], seriesId, seriesPath)
      && Bound(rows[|rows| - 1], seriesId, seriesPath)
      && KeyOf(rows[|rows| - 1]) !in ItemsOf(rows[..|rows| - 1], seriesId)
  }

  lemma {:induction false} EpisodesMeaning(rows: seq<Item>)
    ensures forall i | 0 <= i < |rows| && Physical(rows[i]) :: EpisodeOf(rows[i]) in EpisodesOf(rows)
    ensures forall e | e in EpisodesOf(rows) :: exists i :: 0 <= i < |rows| && Physical(rows[i]) && EpisodeOf(rows[i]) == e
  {
    if rows != [] {
      var front, last := rows[..|rows| - 1], rows[|rows| - 1];
      EpisodesMeaning(front);
      assert rows == front + [last];
    }
  }

  lemma {:induction false} KeysMeaning(rows: seq<Item>, seriesId: Id, seriesPath: seq<string>)
    requires WellFormed(rows, seriesId, seriesPath)
    ensures forall i | 0 <= i < |rows| ::
              && Bound(rows[i], seriesId, seriesPath)
              && KeyOf(rows[i]) in ItemsOf(rows, seriesId)
              && ItemsOf(rows, seriesId)[KeyOf(rows[i])] == rows[i].id
    ensures forall i, j | 0 <= i < j < |rows| :: KeyOf(rows[i]) != KeyOf(rows[j])
  {
    if rows != [] {
      var front, last := rows[..|rows| - 1], rows[|rows| - 1];
      KeysMeaning(front, seriesId, seriesPath);
      assert rows == front + [last];
      forall i | 0 <= i < |front|
        ensures KeyOf(rows[i]) in ItemsOf(front, seriesId) && KeyOf(rows[i]) != KeyOf(last)
      {
        assert rows[i] == front[i];
      }
    }
  }

  // What an accepted inventory says: each key names exactly one row (or the Series itself), and the
  // covered episodes are exactly those of the physical rows.
  lemma {:induction false} InventoryMeaning(rows: seq<Item>, seriesId: Id, seriesPath: seq<string>)
    requires WellFormed(rows, seriesId, seriesPath)
    ensures forall i | 0 <= i < |rows| ::
              && Bound(rows[i], seriesId, seriesPath)
              && KeyOf(rows[i]) in ItemsOf(rows, seriesId)
              && ItemsOf(rows, seriesId)[KeyOf(rows[i])] == rows[i].id
              && (Physical(rows[i]) ==> EpisodeOf(rows[i]) in EpisodesOf(rows))
    ensures forall k | k in ItemsOf(rows, seriesId) && k != SeriesKey :: exists i :: 0 <= i < |rows| && KeyOf(rows[i]) == k
    ensures forall e | e in EpisodesOf(rows) :: exists i :: 0 <= i < |rows| && Physical(rows[i]) && EpisodeOf(rows[i]) == e
    ensures forall i, j | 0 <= i < j < |rows| :: KeyOf(rows[i]) != KeyOf(rows[j])
  {
    if rows != [] {
      var front, last := rows[..|rows| - 1], rows[|rows| - 1];
      InventoryMeaning(front, seriesId, seriesPath);
      KeysMeaning(rows, seriesId, seriesPath);
      EpisodesMeaning(rows);
      forall k | k in ItemsOf(rows, seriesId) && k != SeriesKey
        ensures exists i :: 0 <= i < |rows| && KeyOf(rows[i]) == k
      {
        if k == KeyOf(last) {
          assert KeyOf(rows[|front|]) == k;
        } else {
          var i :| 0 <= i < |front| && KeyOf(front[i]) == k;
          assert KeyOf(rows[i]) == k;
        }
      }
    }
  }

  /******* What a write does, and in which order writes are safe *******/

  function BelowOf(below: map<Id, set<Id>>, id: Id): set<Id> {
    if id in below then below[id] else {}
  }

  // Writing one item's state stores it and may overwrite that user's state of everything below.
  ghost predicate Stored(before: UserDataTable, after: UserDataTable, user: string, id: Id, data: UserData,
                         below: map<Id, set<Id>>)
  {
    && (user, id) in after && after[(user, id)] == data
    && forall k | k in before && !(k.0 == user && (k.1 == id || k.1 in BelowOf(below, id))) ::
         k in after && after[k] == before[k]
  }

  ghost predicate Reaches(before: UserDataTable, writes: seq<UserState>, items: map<ItemKey, Id>,
                          below: map<Id, set<Id>>, after: UserDataTable)
    decreases |writes|
  {
    if writes == [] then before == after
    else
      var last := writes[|writes| - 1];
      last.key in items && exists mid ::
        && Reaches(before, writes[..|writes| - 1], items, below, mid)
        && Stored(mid, after, last.user, items[last.key], last.data, below)
  }

  lemma ReachesAppend(before: UserDataTable, writes: seq<UserState>, items: map<ItemKey, Id>, below: map<Id, set<Id>>,
                      mid: UserDataTable, w: UserState, after: UserDataTable)
    requires w.key in items && forall x | x in writes :: x.key in items
    requires Reaches(before, writes, items, below, mid)
    requires Stored(mid, after, w.user, items[w.key], w.data, below)
    ensures forall x | x in writes + [w] :: x.key in items
    ensures Reaches(before, writes + [w], items, below, after)
  {
    var all := writes + [w];
    assert all[..|all| - 1] == writes && all[|all| - 1] == w;
    assert Reaches(before, all[..|all| - 1], items, below, mid);
  }

  function Rank(key: ItemKey): nat {
    match key
    case SeriesKey => 0
    case SeasonKey(_) => 1
    case EpisodeKey(_) => 2
  }

  // Those of one rank among the first n.
  function OfRank(states: seq<UserState>, rank: nat, n: nat): seq<UserState>
    requires n <= |states|
  {
    if n == 0 then []
    else if Rank(states[n - 1].key) == rank then OfRank(states, rank, n - 1) + [states[n - 1]]
    else OfRank(states, rank, n - 1)
  }

  function OrderUpTo(states: seq<UserState>, rank: nat): seq<UserState> {
    if rank == 0 then [] else OrderUpTo(states, rank - 1) + OfRank(states, rank - 1, |states|)
  }

  // Series first, then Seasons, then Episodes.
  function WriteOrder(states: seq<UserState>): seq<UserState> {
    OrderUpTo(states, 3)
  }

  predicate TopDown(writes: seq<UserState>) {
    forall i, j | 0 <= i < j < |writes| :: Rank(writes[i].key) <= Rank(writes[j].key)
  }

  // The hierarchy agrees with the keys: nothing of the same or a higher kind lies below an item.
  predicate Hierarchy(items: map<ItemKey, Id>, below: map<Id, set<Id>>) {
    && (forall a, b | a in items && b in items && a != b :: items[a] != items[b])
    && (forall a, b | a in items && b in items && Rank(b) <= Rank(a) :: items[b] !in BelowOf(below, items[a]))
  }

  predicate Orderly(catalog: map<Id, seq<Item>>, below: map<Id, set<Id>>) {
    forall id | id in catalog :: Hierarchy(ItemsOf(catalog[id], id), below)
  }

  // The same user and item never carry two different snapshots.
  predicate Consistent(states: seq<UserState>) {
    forall s, t | s in states && t in states && s.user == t.user && s.key == t.key :: s.data == t.data
  }

  ghost predicate Holds(table: UserDataTable, states: seq<UserState>, items: map<ItemKey, Id>) {
    forall s | s in states ::
      s.key in items && (s.user, items[s.key]) in table && table[(s.user, items[s.key])] == s.data
  }

  lemma {:induction false} OfRankMembers(states: seq<UserState>, rank: nat, n: nat)
    requires n <= |states|
    ensures forall w | w in OfRank(states, rank, n) :: w in states && Rank(w.key) == rank
  {
    if n != 0 {
      OfRankMembers(states, rank, n - 1);
    }
  }

  lemma {:induction false} OrderMembers(states: seq<UserState>, rank: nat)
    ensures forall w | w in OrderUpTo(states, rank) :: w in states && Rank(w.key) < rank
  {
    if rank != 0 {
      OrderMembers(states, rank - 1);
      OfRankMembers(states, rank - 1, |states|);
    }
  }

  lemma {:induction false} OfRankCount(states: seq<UserState>, rank: nat, n: nat, s: UserState)
    requires n <= |states|
    ensures multiset(OfRank(states, rank, n))[s] == if Rank(s.key) == rank then multiset(states[..n])[s] else 0
  {
    if n != 0 {
      OfRankCount(states, rank, n - 1, s);
      assert states[..n] == states[..n - 1] + [states[n - 1]];
    }
  }

  // No state is skipped and none is written twice.
  lemma WriteOrderIsPermutation(states: seq<UserState>)
    ensures multiset(WriteOrder(states)) == multiset(states)
  {
    var n := |states|;
    var a, b, c := OfRank(states, 0, n), OfRank(states, 1, n), OfRank(states, 2, n);
    assert OrderUpTo(states, 1) == a;
    assert OrderUpTo(states, 2) == a + b;
    assert WriteOrder(states) == (a + b) + c;
    forall s: UserState
      ensures multiset(WriteOrder(states))[s] == multiset(states)[s]
    {
      OfRankCount(states, 0, n, s);
      OfRankCount(states, 1, n, s);
      OfRankCount(states, 2, n, s);
      assert states[..n] == states;
    }
  }

  lemma {:induction false} OrderIsTopDown(states: seq<UserState>, rank: nat)
    ensures TopDown(OrderUpTo(states, rank))
  {
    if rank != 0 {
      OrderIsTopDown(states, rank - 1);
      OrderMembers(states, rank - 1);
      OfRankMembers(states, rank - 1, |states|);
      var a, b := OrderUpTo(states, rank - 1), OfRank(states, rank - 1, |states|);
      assert forall i | 0 <= i < |a| :: a[i] in a;
      assert forall i | 0 <= i < |b| :: b[i] in b;
    }
  }

  // A write below or beside everything written so far disturbs none of it.
  lemma WriteKeeps(mid: UserDataTable, done: seq<UserState>, w: UserState, after: UserDataTable,
                   items: map<ItemKey, Id>, below: map<Id, set<Id>>)
    requires w.key in items && Holds(mid, done, items) && Hierarchy(items, below)
    requires Stored(mid, after, w.user, items[w.key], w.data, below)
    requires forall s | s in done :: Rank(s.key) <= Rank(w.key)
    requires forall s | s in done && s.user == w.user && s.key == w.key :: s.data == w.data
    ensures Holds(after, done + [w], items)
  {
    forall s | s in done
      ensures (s.user, items[s.key]) in after && after[(s.user, items[s.key])] == s.data
    {
      assert s.key != w.key ==> items[s.key] != items[w.key];
    }
  }

  lemma AllButLast(writes: seq<UserState>)
    requires TopDown(writes) && Consistent(writes) && writes != []
    ensures var front, last := writes[..|writes| - 1], writes[|writes| - 1];
      && writes == front + [last] && TopDown(front) && Consistent(front)
      && (forall s | s in front :: s in writes && Rank(s.key) <= Rank(last.key))
      && (forall s | s in front && s.user == last.user && s.key == last.key :: s.data == last.data)
  {
    var front, last := writes[..|writes| - 1], writes[|writes| - 1];
    assert last in writes;
    forall s | s in front
      ensures s in writes && Rank(s.key) <= Rank(last.key)
    {
      var i :| 0 <= i < |front| && front[i] == s;
      assert writes[i] == s;
    }
  }

  // Top-down writes all survive, whatever a parent write does to the state below it.
  lemma {:induction false} TopDownWritesSurvive(before: UserDataTable, writes: seq<UserState>,
                                                items: map<ItemKey, Id>, below: map<Id, set<Id>>, after: UserDataTable)
    requires forall w | w in writes :: w.key in items
    requires Reaches(before, writes, items, below, after)
    requires TopDown(writes) && Consistent(writes) && Hierarchy(items, below)
    ensures Holds(after, writes, items)
    decreases |writes|
  {
    if writes != [] {
      var front, last := writes[..|writes| - 1], writes[|writes| - 1];
      var mid :| Reaches(before, front, items, below, mid) &&
                 Stored(mid, after, last.user, items[last.key], last.data, below);
      AllButLast(writes);
      TopDownWritesSurvive(before, front, items, below, mid);
      WriteKeeps(mid, front, last, after, items, below);
    }
  }

  // The restore order is therefore enough on its own.
  lemma RestoreOrderSurvives(before: UserDataTable, states: seq<UserState>,
                             items: map<ItemKey, Id>, below: map<Id, set<Id>>, after: UserDataTable)
    requires forall s | s in states :: s.key in items
    requires Reaches(before, WriteOrder(states), items, below, after)
    requires Consistent(states) && Hierarchy(items, below)
    ensures Holds(after, states, items)
  {
    WriteOrderIsPermutation(states);
    OrderMembers(states, 3);
    OrderIsTopDown(states, 3);
    TopDownWritesSurvive(before, WriteOrder(states), items, below, after);
    forall s | s in states
      ensures s in WriteOrder(states)
    {
      assert s in multiset(states);
    }
  }

  // Writing an episode before its Series can lose it: the order is not a formality.
  lemma ChildFirstCanLose(items: map<ItemKey, Id>, below: map<Id, set<Id>>, user: string,
                          episode: UserState, series: UserState)
    requires series.key in items && episode.key in items && items[series.key] != items[episode.key]
    requires items[episode.key] in BelowOf(below, items[series.key])
    requires series.user == episode.user == user && series.data != episode.data
    ensures exists after :: Reaches(map[], [episode, series], items, below, after) && !Holds(after, [episode, series], items)
  {
    var none: UserDataTable := map[];
    var mid := none[(user, items[episode.key]) := episode.data];
    var after := mid[(user, items[episode.key]) := series.data][(user, items[series.key]) := series.data];
    assert Reaches(none, [], items, below, none);
    ReachesAppend(none, [], items, below, none, episode, mid);
    assert [] + [episode] == [episode];
    ReachesAppend(none, [episode], items, below, mid, series, after);
    assert [episode] + [series] == [episode, series];
    assert episode in [episode, series] && after[(user, items[episode.key])] != episode.data;
  }

  /******* Emby *******/

  class Emby {
    // Whether a write stores exactly what it was given.
    const faithful: bool
    // Whether a scan leaves each Series' items in the hierarchy their keys say.
    const orderly: bool
    var users: seq<string>
    var series: seq<SeriesRow>
    var catalog: map<Id, seq<Item>>
    var below: map<Id, set<Id>>
    var gaps: set<Id>
    var data: UserDataTable

    constructor (faithful: bool, orderly: bool, users: seq<string>, series: seq<SeriesRow>, catalog: map<Id, seq<Item>>, data: UserDataTable)
      ensures this.faithful == faithful && this.orderly == orderly && this.users == users && this.series == series
      ensures this.catalog == catalog && this.data == data
    {
      this.faithful, this.orderly := faithful, orderly;
      this.users, this.series, this.catalog, this.data := users, series, catalog, data;
      below, gaps := map[], {};
    }

    // A read that may fail, changing nothing.
    method Attempt() returns (ok: bool)
    {
      ok := *;
    }

    // A library scan may rebuild everything Emby knows.
    method RunLibraryScan() returns (ok: bool)
      modifies this
      ensures orderly ==> Orderly(catalog, below)
    {
      users, series, catalog, below, gaps, data := *, *, *, *, *, *;
      if orderly && !Orderly(catalog, below) {
        catalog := map[];
      }
      ok := *;
    }

    // replacementItems: the paged inventory of one Series.
    method ReplacementItems(seriesId: Id, seriesPath: seq<string>)
      returns (ok: bool, items: map<ItemKey, Id>, episodes: set<EpisodeNumber>)
      ensures ok ==> seriesId in catalog && WellFormed(catalog[seriesId], seriesId, seriesPath)
      ensures ok ==> items == ItemsOf(catalog[seriesId], seriesId) && episodes == EpisodesOf(catalog[seriesId])
    {
      items, episodes := map[SeriesKey := seriesId], {};
      if seriesId !in catalog {
        return false, items, episodes;
      }
      var rows := catalog[seriesId];
      var offset := 0;
      while true
        invariant 0 <= offset <= |rows|
        invariant WellFormed(rows[..offset], seriesId, seriesPath)
        invariant items == ItemsOf(rows[..offset], seriesId) && episodes == EpisodesOf(rows[..offset])
        decreases |rows| - offset
      {
        var limit: int := *;
        ok := Attempt();
        if !ok || limit < 0 || (limit == 0 && offset < |rows|) {
          return false, items, episodes;
        }
        var end := if offset + limit <= |rows| then offset + limit else |rows|;
        for i := offset to end
          invariant WellFormed(rows[..i], seriesId, seriesPath)
          invariant items == ItemsOf(rows[..i], seriesId) && episodes == EpisodesOf(rows[..i])
        {
          var item := rows[i];
          assert rows[..i + 1][..i] == rows[..i];
          if !Bound(item, seriesId, seriesPath) {
            return false, items, episodes;
          }
          if Physical(item) {
            episodes := episodes + {EpisodeOf(item)};
          }
          if KeyOf(item) in items {
            return false, items, episodes;
          }
          items := items[KeyOf(item) := item.id];
        }
        offset := end;
        if offset == |rows| {
          assert rows[..offset] == rows;
          return true, items, episodes;
        }
      }
    }

    method ReadUserData(user: string, id: Id) returns (r: Option<UserData>)
      ensures r.Some? ==> (user, id) in data && data[(user, id)] == r.value
    {
      var ok := Attempt();
      if ok && (user, id) in data {
        return Some(data[(user, id)]);
      }
      return None;
    }

    method WriteUserData(user: string, id: Id, value: UserData) returns (ok: bool)
      modifies this`data
      ensures ok && faithful ==> Stored(old(data), data, user, id, value, below)
    {
      ok := Attempt();
      var effect: bool := *;
      if ok || effect {
        var affected: UserDataTable := *;
        var stored: UserData := *;
        var spill := map k | k in affected && k.0 == user && k.1 in BelowOf(below, id) :: affected[k];
        data := (data + spill)[(user, id) := if faithful then value else stored];
      }
    }

    // snapshotReplacementState: every user's state of every item.
    method Snapshot(items: map<ItemKey, Id>) returns (ok: bool, states: seq<UserState>)
      ensures ok ==> users != [] && IsSnapshot(states, users, items, data)
    {
      states := [];
      ok := Attempt();
      if !ok || users == [] {
        return false, [];
      }
      for i := 0 to |users|
        invariant IsSnapshot(states, users[..i], items, data)
      {
        if users[i] == "" {
          return false, [];
        }
        ghost var base := states;
        var todo := items.Keys;
        ghost var done: set<ItemKey> := {};
        while todo != {}
          invariant done + todo == items.Keys && done !! todo
          invariant forall s | s in states :: s in base || (s.user == users[i] && s.key in done)
          invariant forall s | s in states :: s.key in items && (s.user, items[s.key]) in data && s.data == data[(s.user, items[s.key])]
          invariant forall s | s in base :: s in states
          invariant forall k | k in done :: (users[i], items[k]) in data && UserState(users[i], k, data[(users[i], items[k])]) in states
          decreases todo
        {
          var key :| key in todo;
          var value := ReadUserData(users[i], items[key]);
          if value.None? {
            return false, [];
          }
          states := states + [UserState(users[i], key, value.value)];
          todo, done := todo - {key}, done + {key};
        }
        assert users[..i + 1] == users[..i] + [users[i]];
      }
      assert users[..|users|] == users;
    }

    // The writes of one kind, made after `prior` turned `start` into the present table.
    method WriteRank(states: seq<UserState>, items: map<ItemKey, Id>, rank: nat,
                     ghost start: UserDataTable, ghost prior: seq<UserState>)
      returns (ok: bool)
      requires forall s | s in states + prior :: s.key in items
      requires faithful ==> Reaches(start, prior, items, below, data)
      modifies this`data
      ensures ok && faithful ==> Reaches(start, prior + OfRank(states, rank, |states|), items, below, data)
    {
      ghost var written := prior;
      for i := 0 to |states|
        invariant written == prior + OfRank(states, rank, i)
        invariant forall s | s in written :: s.key in items
        invariant faithful ==> Reaches(start, written, items, below, data)
      {
        if Rank(states[i].key) == rank {
          ghost var mid := data;
          ok := WriteUserData(states[i].user, items[states[i].key], states[i].data);
          if !ok {
            return false;
          }
          if faithful {
            ReachesAppend(start, written, items, below, mid, states[i], data);
          }
          written := written + [states[i]];
        }
      }
      return true;
    }

    // restoreReplacementState: refuse a state without destination, write in order, read all back.
    method Restore(states: seq<UserState>, items: map<ItemKey, Id>) returns (r: RestoreResult)
      modifies this`data
      ensures r.NoDestination? <==> exists s | s in states :: s.key !in items || items[s.key] == ""
      ensures r.NoDestination? ==> data == old(data)
      ensures r.Restored? ==> Holds(data, states, items)
      ensures r.Restored? && faithful ==> Reaches(old(data), WriteOrder(states), items, below, data)
      ensures faithful && Consistent(states) && Hierarchy(items, below) ==> !r.Mismatch?
    {
      if exists s | s in states :: s.key !in items || items[s.key] == "" {
        return NoDestination;
      }
      var ok := WriteAll(states, items);
      if !ok {
        return WriteFailed;
      }
      if faithful && Consistent(states) && Hierarchy(items, below) {
        RestoreOrderSurvives(old(data), states, items, below, data);
      }
      r := ReadBack(states, items);
    }

    // Series, then Seasons, then Episodes.
    method WriteAll(states: seq<UserState>, items: map<ItemKey, Id>) returns (ok: bool)
      requires forall s | s in states :: s.key in items
      modifies this`data
      ensures ok && faithful ==> Reaches(old(data), WriteOrder(states), items, below, data)
    {
      for rank := 0 to 3
        invariant faithful ==> Reaches(old(data), OrderUpTo(states, rank), items, below, data)
      {
        OrderMembers(states, rank);
        ok := WriteRank(states, items, rank, old(data), OrderUpTo(states, rank));
        if !ok {
          return;
        }
      }
      ok := true;
    }

    method ReadBack(states: seq<UserState>, items: map<ItemKey, Id>) returns (r: RestoreResult)
      requires forall s | s in states :: s.key in items
      ensures r.Restored? ==> Holds(data, states, items)
      ensures r.Restored? || r.ReadFailed? || r.Mismatch?
      ensures Holds(data, states, items) ==> !r.Mismatch?
    {
      for i := 0 to |states|
        invariant Holds(data, states[..i], items)
      {
        assert states[i] in states;
        var actual := ReadUserData(states[i].user, items[states[i].key]);
        if actual.None? {
          return ReadFailed;
        }
        if actual.value != states[i].data {
          return Mismatch;
        }
        assert states[..i + 1] == states[..i] + [states[i]];
      }
      assert states[..|states|] == states;
      r := Restored;
    }
  }

  ghost predicate IsSnapshot(states: seq<UserState>, users: seq<string>, items: map<ItemKey, Id>, table: UserDataTable) {
    && (forall s | s in states :: s.user in users && s.key in items && (s.user, items[s.key]) in table && s.data == table[(s.user, items[s.key])])
    && (forall u, k | u in users && k in items :: (u, items[k]) in table && UserState(u, k, table[(u, items[k])]) in states)
  }

  // Snapshots are always consistent, so restoring one into a proper hierarchy cannot be refused.
  lemma SnapshotIsConsistent(states: seq<UserState>, users: seq<string>, items: map<ItemKey, Id>, table: UserDataTable)
    requires IsSnapshot(states, users, items, table)
    ensures Consistent(states)
  {
  }

  // So are two of different items together.
  lemma SnapshotsAreConsistent(states: seq<UserState>, more: seq<UserState>, users: seq<string>, others: seq<string>,
                               items: map<ItemKey, Id>, extra: map<ItemKey, Id>, table: UserDataTable)
    requires IsSnapshot(states, users, items, table) && IsSnapshot(more, others, extra, table) && items.Keys !! extra.Keys
    ensures Consistent(states + more)
  {
    SnapshotIsConsistent(states, users, items, table);
    SnapshotIsConsistent(more, others, extra, table);
    forall s, t | s in states + more && t in states + more && s.user == t.user && s.key == t.key
      ensures s.data == t.data
    {
      assert (s in states ==> s.key in items) && (s in more ==> s.key in extra);
      assert (t in states ==> t.key in items) && (t in more ==> t.key in extra);
    }
  }
}
