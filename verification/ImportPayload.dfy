// The payload of an import task: what the queue accepts and persists, what a retry makes of it, and what
// the worker insists on when it runs.
module ImportPayload {
  import opened Common
  import opened Text
  import opened ShareSelection

  // A decoded JSON value. `Sources` is an array of source identities.
  datatype Value = Null | Str(s: string) | Flag(b: bool) | Items(items: seq<Value>) | Sources(sources: seq<Selection>) | Other

  // The keys an import reads. A payload may hold others, which nothing looks at.
  datatype Key =
    | QuarkAccount | QuarkTarget | ShareUrl | C115Account
    | PriorTask | ParentTask | ImportAll | SelectedIds | Manifest | ExpectedEpisodes
    | LibraryName | LibraryId | LibraryCid | SeriesId | TmdbId | SeriesFolder

  type Payload = map<Key, Value>

  predicate IsAccount(k: Key) {
    k.QuarkAccount? || k.QuarkTarget? || k.ShareUrl? || k.C115Account?
  }

  predicate IsBinding(k: Key) {
    k.LibraryName? || k.LibraryId? || k.LibraryCid? || k.SeriesId? || k.TmdbId? || k.SeriesFolder?
  }

  /******* Reading a payload; `None` is an error *******/

  function Get(p: Payload, key: Key): Option<Value> {
    if key in p then Some(p[key]) else None
  }

  function StringOf(v: Option<Value>, required: bool): Option<string> {
    if v.None? then if required then None else Some("")
    else if !v.value.Str? || (required && TrimSpace(v.value.s) == "") then None
    else Some(TrimSpace(v.value.s))
  }

  function BooleanOf(v: Option<Value>, fallback: bool): Option<bool> {
    if v.None? then Some(fallback) else if v.value.Flag? then Some(v.value.b) else None
  }

  function StringsOf(v: Option<Value>): Option<seq<string>> {
    if v.None? || v.value.Null? then Some([])
    else match v.value
      case Items(items) => TrimmedStrings(items)
      case Sources(sources) => if sources == [] then Some([]) else None
      case _ => None
  }

  // Non-empty strings without repetition, trimmed.
  function TrimmedStrings(items: seq<Value>): Option<seq<string>> {
    if items == [] then Some([]) else
      var last := items[|items| - 1];
      match TrimmedStrings(items[..|items| - 1])
      case None => None
      case Some(front) =>
        if !last.Str? || TrimSpace(last.s) == "" || TrimSpace(last.s) in front then None
        else Some(front + [TrimSpace(last.s)])
  }

  function Trimmed(s: Selection): Selection {
    Selection(TrimSpace(s.id), TrimSpace(s.revision), TrimSpace(s.name), s.size)
  }

  predicate WellFormedSelections(ss: seq<Selection>) {
    && (forall i | 0 <= i < |ss| :: ss[i].id != "" && ss[i].revision != "" && ss[i].name != "" && ss[i].size >= 0)
    && forall i, j | 0 <= i < j < |ss| :: ss[i].id != ss[j].id && LeafOf(ss[i]) != LeafOf(ss[j])
  }

  function SelectionsOf(v: Option<Value>): (r: Option<seq<Selection>>)
    ensures r.Some? ==> WellFormedSelections(r.value)
  {
    if v.None? || v.value.Null? then Some([])
    else match v.value
      case Sources(sources) =>
        var trimmed := seq(|sources|, i requires 0 <= i < |sources| => Trimmed(sources[i]));
        if WellFormedSelections(trimmed) then Some(trimmed) else None
      case Items(items) => if items == [] then Some([]) else None
      case _ => None
  }

  predicate Aligned(ids: seq<string>, selections: seq<Selection>) {
    |ids| == |selections| && forall i | 0 <= i < |ids| :: selections[i].id == ids[i]
  }

  // Everything an import payload says.
  datatype Fields = Fields(
    prior: string, parent: string, importAll: bool,
    idsSubmitted: bool, ids: seq<string>,
    manifestSubmitted: bool, selections: seq<Selection>,
    expected: seq<string>, binding: Binding)

  // The autofill destination: whether any part of it, all of it, and the series in it are given.
  datatype Binding = Binding(any: bool, all: bool, series: bool)

  function ReadBinding(p: Payload): Option<Binding> {
    if exists k: Key {:trigger Get(p, k)} | IsBinding(k) :: StringOf(Get(p, k), false).None? then None
    else Some(Binding(exists k: Key {:trigger Get(p, k)} | IsBinding(k) :: StringOf(Get(p, k), false).value != "",
                      forall k: Key {:trigger Get(p, k)} | IsBinding(k) :: StringOf(Get(p, k), false).value != "",
                      StringOf(Get(p, SeriesId), false).value != ""))
  }

  predicate ReadsAccounts(p: Payload) {
    forall k: Key {:trigger Get(p, k)} | IsAccount(k) :: StringOf(Get(p, k), true).Some?
  }

  function Read(p: Payload): (r: Option<Fields>)
    ensures r.Some? ==> WellFormedSelections(r.value.selections)
  {
    var prior, parent, importAll := StringOf(Get(p, PriorTask), false), StringOf(Get(p, ParentTask), false), BooleanOf(Get(p, ImportAll), false);
    var ids, selections, expected := StringsOf(Get(p, SelectedIds)), SelectionsOf(Get(p, Manifest)), StringsOf(Get(p, ExpectedEpisodes));
    var binding := ReadBinding(p);
    if !ReadsAccounts(p) || prior.None? || parent.None? || importAll.None? || ids.None? || selections.None? || expected.None? || binding.None?
    then None
    else Some(Fields(prior.value, parent.value, importAll.value, SelectedIds in p, ids.value, Manifest in p, selections.value,
                     expected.value, binding.value))
  }

  /******* What the queue accepts *******/

  // validateQuarkImportPayload, once the payload is read.
  predicate Valid(f: Fields, allowBinding: bool) {
    && (f.manifestSubmitted ==> f.selections != [] && !f.importAll)
    && if !f.binding.any then
         && (f.idsSubmitted ==> allowBinding && f.prior != "") && f.expected == [] && f.parent == ""
         && (f.prior != "" ==> allowBinding)
         && (allowBinding && f.prior != "" && f.idsSubmitted ==> f.ids != [] && Aligned(f.ids, f.selections))
         && (f.importAll || f.manifestSubmitted)
       else
         && allowBinding && !f.importAll && f.ids != [] && f.expected != [] && f.parent != ""
         && Aligned(f.ids, f.selections) && f.binding.all
  }

  predicate Validates(p: Payload, allowBinding: bool) {
    Read(p).Some? && Valid(Read(p).value, allowBinding)
  }

  // enqueue: a public import is stored with the IDs its manifest names.
  function Enqueued(p: Payload): Option<Payload> {
    if !Validates(p, false) then None
    else Some(if SelectionsOf(Get(p, Manifest)).value == [] then p else WithIds(p, SelectionsOf(Get(p, Manifest)).value))
  }

  function WithIds(p: Payload, selections: seq<Selection>): Payload {
    p[SelectedIds := Items(Texts(Ids(selections)))]
  }

  function Texts(ids: seq<string>): seq<Value> {
    seq(|ids|, i requires 0 <= i < |ids| => Str(ids[i]))
  }

  // enqueueAutofillQuarkImport, for a new autofill import and for every retry.
  function EnqueuedInternally(p: Payload): Option<Payload> {
    if Validates(p, true) then Some(p) else None
  }

  function RetryOf(p: Payload, failed: Id): Payload {
    p[PriorTask := Str(failed)]
  }

  /******* What the worker insists on *******/

  // What a run takes from its payload, the prior task aside.
  datatype Work = Work(importAll: bool, ids: seq<string>, selections: seq<Selection>, bound: bool)

  // `None` where the worker refuses the task.
  function WorkOf(p: Payload): Option<Work> {
    match Read(p)
    case None => None
    case Some(f) =>
      if f.importAll && (f.selections != [] || f.ids != []) then None
      else if !f.importAll && (f.selections == [] || !Aligned(f.ids, f.selections)) then None
      else Some(Work(f.importAll, f.ids, f.selections, f.binding.series))
  }

  /******* Persisted payloads stay good *******/

  // Good for the worker, and for the validator once any task's ID is put in.
  ghost predicate Good(p: Payload) {
    WorkOf(p).Some? && forall failed: Id | TrimSpace(failed) != "" :: Validates(RetryOf(p, failed), true)
  }

  lemma BindingReadsTheSame(p: Payload, q: Payload)
    requires forall k | IsBinding(k) || IsAccount(k) :: Get(q, k) == Get(p, k)
    ensures ReadBinding(q) == ReadBinding(p) && ReadsAccounts(q) == ReadsAccounts(p)
  {
  }

  lemma ReadRetry(p: Payload, failed: Id)
    requires Read(p).Some?
    ensures Read(RetryOf(p, failed)) == Some(Read(p).value.(prior := TrimSpace(failed)))
  {
    assert forall k | k != PriorTask :: Get(RetryOf(p, failed), k) == Get(p, k);
    BindingReadsTheSame(p, RetryOf(p, failed));
  }

  lemma ReadWithIds(p: Payload)
    requires Read(p).Some? && Read(p).value.selections != []
    ensures var f := Read(p).value;
      Read(WithIds(p, f.selections)) == Some(f.(idsSubmitted := true, ids := Ids(f.selections)))
  {
    var q := WithIds(p, Read(p).value.selections);
    assert forall k | k != SelectedIds :: Get(q, k) == Get(p, k);
    BindingReadsTheSame(p, q);
    DerivedIds(p, Read(p).value.selections);
  }

  // Distinct trimmed strings are read as they are.
  lemma {:induction false} ReadTrimmed(ids: seq<string>, n: nat)
    requires n <= |ids| && forall i | 0 <= i < |ids| :: ids[i] != "" && TrimSpace(ids[i]) == ids[i]
    requires forall i, j | 0 <= i < j < |ids| :: ids[i] != ids[j]
    ensures TrimmedStrings(Texts(ids[..n])) == Some(ids[..n])
  {
    if n != 0 {
      ReadTrimmed(ids, n - 1);
      var items := Texts(ids[..n]);
      assert items[..n - 1] == Texts(ids[..n - 1]);
      assert ids[n - 1] !in ids[..n - 1];
      assert ids[..n] == ids[..n - 1] + [ids[n - 1]];
    }
  }

  lemma TrimmedSelections(v: Option<Value>, i: nat)
    requires SelectionsOf(v).Some? && i < |SelectionsOf(v).value|
    ensures TrimSpace(SelectionsOf(v).value[i].id) == SelectionsOf(v).value[i].id
  {
    TrimSpaceTwice(v.value.sources[i].id);
  }

  lemma DerivedIds(p: Payload, selections: seq<Selection>)
    requires SelectionsOf(Get(p, Manifest)) == Some(selections)
    ensures StringsOf(Get(WithIds(p, selections), SelectedIds)) == Some(Ids(selections))
  {
    forall i | 0 <= i < |selections|
      ensures TrimSpace(selections[i].id) == selections[i].id
    {
      TrimmedSelections(Get(p, Manifest), i);
    }
    var ids := Ids(selections);
    assert ids[..|ids|] == ids;
    ReadTrimmed(ids, |ids|);
  }

  // Every public import the queue persists is good.
  lemma PublicIsGood(p: Payload)
    requires Enqueued(p).Some?
    ensures Good(Enqueued(p).value)
    ensures var selections := Read(p).value.selections;
      WorkOf(Enqueued(p).value) == Some(Work(Read(p).value.importAll, Ids(selections), selections, false))
  {
    var q := Enqueued(p).value;
    if SelectionsOf(Get(p, Manifest)).value != [] {
      ReadWithIds(p);
    }
    forall failed: Id | TrimSpace(failed) != ""
      ensures Validates(RetryOf(q, failed), true)
    {
      ReadRetry(q, failed);
    }
  }

  // Every autofill import the queue persists is good.
  lemma AutofillIsGood(p: Payload)
    requires EnqueuedInternally(p).Some? && Read(p).value.binding.any
    ensures Good(p)
  {
    forall failed: Id | TrimSpace(failed) != ""
      ensures Validates(RetryOf(p, failed), true)
    {
      ReadRetry(p, failed);
    }
  }

  // The payload after a chain of retries, each naming the task it retries.
  function RetriesOf(p: Payload, failed: seq<Id>): Payload {
    if failed == [] then p else RetryOf(RetriesOf(p, failed[..|failed| - 1]), failed[|failed| - 1])
  }

  // However often it is retried, a good payload is accepted by the queue and gives the worker the same work.
  lemma {:induction false} RetriesStayGood(p: Payload, failed: seq<Id>)
    requires Good(p) && forall i | 0 <= i < |failed| :: TrimSpace(failed[i]) != ""
    ensures Good(RetriesOf(p, failed)) && WorkOf(RetriesOf(p, failed)) == WorkOf(p)
    ensures failed != [] ==> EnqueuedInternally(RetriesOf(p, failed)) == Some(RetriesOf(p, failed))
  {
    if failed != [] {
      var before, last := RetriesOf(p, failed[..|failed| - 1]), failed[|failed| - 1];
      RetriesStayGood(p, failed[..|failed| - 1]);
      RetryStaysGood(before, last);
    }
  }

  lemma RetryStaysGood(p: Payload, failed: Id)
    requires Good(p) && TrimSpace(failed) != ""
    ensures Good(RetryOf(p, failed)) && WorkOf(RetryOf(p, failed)) == WorkOf(p)
  {
    ReadRetry(p, failed);
    forall next: Id | TrimSpace(next) != ""
      ensures Validates(RetryOf(RetryOf(p, failed), next), true)
    {
      assert RetryOf(RetryOf(p, failed), next) == RetryOf(p, next);
    }
  }

  // The validator alone is not enough: it lets through an unbound selective retry whose IDs were never
  // derived, and nothing else the worker would refuse.
  lemma WorkerAcceptsIff(p: Payload)
    requires Validates(p, true)
    ensures WorkOf(p).Some? <==> var f := Read(p).value; f.binding.any || f.importAll || f.idsSubmitted
  {
  }
}