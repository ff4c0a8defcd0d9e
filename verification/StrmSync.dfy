// One synchronisation of a STRM library: the plan made from a walk over the media, the two workers that
// write it, and the pruning of stale pointers. Paths and contents are strings; what the canonical path of
// a source is, is given.
module StrmSync {
  import opened Common

  type Path = string
  type Files = map<Path, string>

  // A media file met by the walk: the STRM path it would have unchanged, the canonical one (`None` if it has
  // none), and the pointer text, which names this file alone.
  datatype Source = Source(original: Path, output: Option<Path>, content: string)

  datatype Job = Job(output: Path, contents: seq<string>, normalized: bool)

  datatype Relocation = Relocation(output: Path, content: string)

  datatype Plan = Plan(jobs: seq<Job>, relocations: map<Path, Relocation>)

  /******* The plan *******/

  predicate Normalized(s: Source) {
    s.output != Some(s.original)
  }

  // The contents of the sources that map to a path, in walk order.
  function ContentsFor(sources: seq<Source>, output: Path): seq<string> {
    if sources == [] then [] else
      var last := sources[|sources| - 1];
      ContentsFor(sources[..|sources| - 1], output) + if last.output == Some(output) then [last.content] else []
  }

  // Two sources may share a path only if neither was renamed to it.
  predicate Plannable(sources: seq<Source>) {
    && (forall s | s in sources :: s.output.Some?)
    && forall i, j | 0 <= i < j < |sources| && sources[i].output == sources[j].output ::
         !Normalized(sources[i]) && !Normalized(sources[j])
  }

  predicate DistinctOutputs(jobs: seq<Job>) {
    forall i, j | 0 <= i < j < |jobs| :: jobs[i].output != jobs[j].output
  }

  predicate IsJobFor(job: Job, sources: seq<Source>) {
    && job.contents != [] && job.contents == ContentsFor(sources, job.output)
    && (job.normalized ==> |job.contents| == 1)
    && forall s | s in sources && s.output == Some(job.output) :: Normalized(s) == job.normalized
  }

  // A relocation leads from a renamed source's old path to the path its pointer has now.
  predicate IsRelocation(sources: seq<Source>, path: Path, r: Relocation) {
    exists s | s in sources :: Normalized(s) && s.original == path && s.output == Some(r.output) && s.content == r.content
  }

  predicate IsPlan(sources: seq<Source>, plan: Plan) {
    && DistinctOutputs(plan.jobs)
    && (forall job | job in plan.jobs :: IsJobFor(job, sources))
    && (forall s | s in sources :: s.output.Some? && HasJob(plan.jobs, s.output.value))
    && Total(plan.jobs, |plan.jobs|) == |sources|
    && (forall path | path in plan.relocations :: IsRelocation(sources, path, plan.relocations[path]))
    && forall s | s in sources && Normalized(s) :: s.original in plan.relocations
  }

  predicate HasJob(jobs: seq<Job>, output: Path) {
    exists j | 0 <= j < |jobs| :: jobs[j].output == output
  }

  // The contents the first n jobs write.
  function Total(jobs: seq<Job>, n: nat): nat
    requires n <= |jobs|
  {
    if n == 0 then 0 else Total(jobs, n - 1) + |jobs[n - 1].contents|
  }

  lemma {:induction false} TotalPrefix(a: seq<Job>, b: seq<Job>, n: nat)
    requires n <= |a| && n <= |b| && forall j | 0 <= j < n :: |a[j].contents| == |b[j].contents|
    ensures Total(a, n) == Total(b, n)
  {
    if n > 0 {
      TotalPrefix(a, b, n - 1);
    }
  }

  lemma {:induction false} TotalOneMore(jobs: seq<Job>, k: nat, job: Job, n: nat)
    requires k < n <= |jobs| && |job.contents| == |jobs[k].contents| + 1
    ensures Total(jobs[k := job], n) == Total(jobs, n) + 1
  {
    if k == n - 1 {
      TotalPrefix(jobs[k := job], jobs, k);
    } else {
      TotalOneMore(jobs, k, job, n - 1);
    }
  }

  // One source joins the plan of those before it; `None` where the walk reports a collision.
  function Joined(p: Plan, s: Source, k: Option<nat>): Plan
    requires s.output.Some? && (k.Some? ==> k.value < |p.jobs|)
  {
    Plan(if k.Some? then p.jobs[k.value := p.jobs[k.value].(contents := p.jobs[k.value].contents + [s.content])]
         else p.jobs + [Job(s.output.value, [s.content], Normalized(s))],
         if Normalized(s) then p.relocations[s.original := Relocation(s.output.value, s.content)] else p.relocations)
  }

  method PlanSync(sources: seq<Source>) returns (plan: Option<Plan>)
    ensures plan.Some? <==> Plannable(sources)
    ensures plan.Some? ==> IsPlan(sources, plan.value)
  {
    var p := Plan([], map[]);
    var index: map<Path, nat> := map[];
    NothingPlanned();
    for i := 0 to |sources|
      invariant PlannedSoFar(sources[..i], p, index)
    {
      PrefixPlannable(sources, i);
      var next;
      next, index := PlanOne(sources[..i], p, index, sources[i]);
      if next.None? {
        return None;
      }
      p := next.value;
    }
    assert sources[..|sources|] == sources;
    plan := Some(p);
  }

  predicate PlannedSoFar(walked: seq<Source>, p: Plan, index: map<Path, nat>) {
    Plannable(walked) && IsPlan(walked, p) && Indexes(index, p.jobs)
  }

  lemma NothingPlanned()
    ensures PlannedSoFar([], Plan([], map[]), map[])
  {
  }

  // `None` where the walk reports a path without canonical form, or a collision.
  method PlanOne(ghost sources: seq<Source>, p: Plan, index: map<Path, nat>, s: Source) returns (next: Option<Plan>, more: map<Path, nat>)
    requires PlannedSoFar(sources, p, index)
    ensures next.Some? <==> Plannable(sources + [s])
    ensures next.Some? ==> PlannedSoFar(sources + [s], next.value, more)
  {
    more := index;
    if s.output.None? {
      assert s in sources + [s];
      return None, more;
    }
    var k := if s.output.value in index then Some(index[s.output.value]) else None;
    if k.Some? && (Normalized(s) || p.jobs[k.value].normalized) {
      NotPlannable(sources, s, p.jobs[k.value]);
      return None, more;
    }
    JoinedIsPlan(sources, p, s, k);
    if k.None? {
      more := index[s.output.value := |p.jobs|];
    }
    next := Some(Joined(p, s, k));
    JoinedIndexes(p, index, s, k, more);
  }

  lemma JoinedIndexes(p: Plan, index: map<Path, nat>, s: Source, k: Option<nat>, more: map<Path, nat>)
    requires s.output.Some? && Indexes(index, p.jobs)
    requires k == if s.output.value in index then Some(index[s.output.value]) else None
    requires more == if k.None? then index[s.output.value := |p.jobs|] else index
    ensures Indexes(more, Joined(p, s, k).jobs)
  {
  }

  lemma PrefixPlannable(sources: seq<Source>, i: nat)
    requires i < |sources|
    ensures sources[..i + 1] == sources[..i] + [sources[i]]
    ensures Plannable(sources) ==> Plannable(sources[..i] + [sources[i]])
  {
    var all := sources[..i] + [sources[i]];
    assert forall j | 0 <= j < |all| :: all[j] == sources[j];
    assert forall x | x in all :: x in sources;
  }

  predicate Indexes(index: map<Path, nat>, jobs: seq<Job>) {
    && (forall path | path in index :: index[path] < |jobs| && jobs[index[path]].output == path)
    && forall j | 0 <= j < |jobs| :: jobs[j].output in index
  }

  lemma {:induction false} ContentHasSource(sources: seq<Source>, output: Path) returns (i: nat)
    requires ContentsFor(sources, output) != []
    ensures i < |sources| && sources[i].output == Some(output)
  {
    i := |sources| - 1;
    if sources[i].output != Some(output) {
      i := ContentHasSource(sources[..i], output);
    }
  }

  lemma NotPlannable(sources: seq<Source>, s: Source, job: Job)
    requires IsJobFor(job, sources) && s.output == Some(job.output) && (Normalized(s) || job.normalized)
    ensures !Plannable(sources + [s])
  {
    var j := ContentHasSource(sources, job.output);
    var all := sources + [s];
    assert sources[j] in sources;
    assert all[j] == sources[j] && all[|sources|] == s;
  }

  lemma JoinedIsPlan(sources: seq<Source>, p: Plan, s: Source, k: Option<nat>)
    requires Plannable(sources) && IsPlan(sources, p) && s.output.Some?
    requires k.Some? ==> k.value < |p.jobs| && p.jobs[k.value].output == s.output.value && !Normalized(s) && !p.jobs[k.value].normalized
    requires k.None? ==> !HasJob(p.jobs, s.output.value)
    ensures Plannable(sources + [s]) && IsPlan(sources + [s], Joined(p, s, k))
  {
    JoinedPlannable(sources, p, s, k);
    JoinedJobs(sources, p, s, k);
    JoinedTotal(p, s, k);
    JoinedRelocations(sources, p, s, k);
  }

  lemma JoinedPlannable(sources: seq<Source>, p: Plan, s: Source, k: Option<nat>)
    requires Plannable(sources) && IsPlan(sources, p) && s.output.Some?
    requires k.Some? ==> k.value < |p.jobs| && p.jobs[k.value].output == s.output.value && !Normalized(s) && !p.jobs[k.value].normalized
    requires k.None? ==> !HasJob(p.jobs, s.output.value)
    ensures Plannable(sources + [s])
  {
    forall i | 0 <= i < |sources| && sources[i].output == s.output
      ensures !Normalized(sources[i]) && !Normalized(s)
    {
      assert sources[i] in sources && HasJob(p.jobs, s.output.value);
      assert p.jobs[k.value] in p.jobs;
    }
    assert forall x | x in sources + [s] :: x in sources || x == s;
  }

  lemma JoinedJobs(sources: seq<Source>, p: Plan, s: Source, k: Option<nat>)
    requires IsPlan(sources, p) && s.output.Some?
    requires k.Some? ==> k.value < |p.jobs| && p.jobs[k.value].output == s.output.value && !Normalized(s) && !p.jobs[k.value].normalized
    requires k.None? ==> !HasJob(p.jobs, s.output.value)
    ensures var jobs := Joined(p, s, k).jobs;
      && DistinctOutputs(jobs) && (forall job | job in jobs :: IsJobFor(job, sources + [s]))
      && forall x | x in sources + [s] :: x.output.Some? && HasJob(jobs, x.output.value)
  {
    var jobs := Joined(p, s, k).jobs;
    forall j | 0 <= j < |jobs|
      ensures IsJobFor(jobs[j], sources + [s])
    {
      if j == |p.jobs| {
        NoContent(sources, p, s.output.value);
        NewJob(sources, s);
      } else {
        assert p.jobs[j] in p.jobs;
        OldJob(sources, p.jobs[j], s);
      }
    }
    forall x | x in sources + [s]
      ensures x.output.Some? && HasJob(jobs, x.output.value)
    {
      if x == s {
        assert jobs[if k.Some? then k.value else |p.jobs|].output == s.output.value;
      } else {
        var j :| 0 <= j < |p.jobs| && p.jobs[j].output == x.output.value;
        assert jobs[j].output == p.jobs[j].output;
      }
    }
  }

  lemma NewJob(sources: seq<Source>, s: Source)
    requires s.output.Some? && ContentsFor(sources, s.output.value) == [] && forall x | x in sources :: x.output != s.output
    ensures IsJobFor(Job(s.output.value, [s.content], Normalized(s)), sources + [s])
  {
    assert (sources + [s])[..|sources|] == sources;
  }

  // A job whose path the next source does not share stays as it is; one whose path it shares gains its content.
  lemma OldJob(sources: seq<Source>, job: Job, s: Source)
    requires IsJobFor(job, sources) && s.output.Some?
    requires s.output == Some(job.output) ==> !Normalized(s) && !job.normalized
    ensures IsJobFor(if s.output == Some(job.output) then job.(contents := job.contents + [s.content]) else job, sources + [s])
  {
    assert (sources + [s])[..|sources|] == sources;
  }

  lemma NoContent(sources: seq<Source>, p: Plan, output: Path)
    requires IsPlan(sources, p) && !HasJob(p.jobs, output)
    ensures ContentsFor(sources, output) == [] && forall s | s in sources :: s.output != Some(output)
  {
    Unclaimed(sources, output);
  }

  lemma {:induction false} Unclaimed(sources: seq<Source>, output: Path)
    requires forall s | s in sources :: s.output != Some(output)
    ensures ContentsFor(sources, output) == []
  {
    if sources != [] {
      Unclaimed(sources[..|sources| - 1], output);
    }
  }

  lemma JoinedTotal(p: Plan, s: Source, k: Option<nat>)
    requires s.output.Some? && (k.Some? ==> k.value < |p.jobs|)
    ensures var jobs := Joined(p, s, k).jobs; Total(jobs, |jobs|) == Total(p.jobs, |p.jobs|) + 1
  {
    if k.Some? {
      TotalOneMore(p.jobs, k.value, Joined(p, s, k).jobs[k.value], |p.jobs|);
    } else {
      TotalPrefix(p.jobs, Joined(p, s, k).jobs, |p.jobs|);
    }
  }

  lemma JoinedRelocations(sources: seq<Source>, p: Plan, s: Source, k: Option<nat>)
    requires IsPlan(sources, p) && s.output.Some? && (k.Some? ==> k.value < |p.jobs|)
    ensures var r := Joined(p, s, k).relocations;
      && (forall path | path in r :: IsRelocation(sources + [s], path, r[path]))
      && forall x | x in sources + [s] && Normalized(x) :: x.original in r
  {
    var r := Joined(p, s, k).relocations;
    assert s in sources + [s];
    forall path | path in r
      ensures IsRelocation(sources + [s], path, r[path])
    {
      if path in p.relocations && r[path] == p.relocations[path] {
        var x :| x in sources && Normalized(x) && x.original == path && x.output == Some(r[path].output) && x.content == r[path].content;
        assert x in sources + [s];
      }
    }
  }

  /******* The two workers *******/

  // What a worker is doing: before a read, or between the read and the write that follows it.
  datatype Activity =
    | Idle
    | Reading(job: nat, done: nat)
    | Writing(job: nat, done: nat, existing: Option<string>)

  // The jobs not yet taken start at `next`. `cancelled` is set by the first failure.
  datatype Shared = Shared(next: nat, files: Files, created: nat, updated: nat, same: nat, cancelled: bool)

  datatype Engine = Engine(shared: Shared, first: Activity, second: Activity)

  // Which worker moves, and whether its call to the file system fails.
  datatype Turn = Turn(first: bool, fails: bool)

  function Get(files: Files, path: Path): Option<string> {
    if path in files then Some(files[path]) else None
  }

  function Advance(job: Job, j: nat, done: nat): Activity {
    if done + 1 < |job.contents| then Reading(j, done + 1) else Idle
  }

  predicate Sensible(jobs: seq<Job>, a: Activity) {
    a.Idle? || (a.job < |jobs| && a.done < |jobs[a.job].contents|)
  }

  // One step of one worker.
  function Act(jobs: seq<Job>, s: Shared, a: Activity, fails: bool): (Shared, Activity)
    requires Sensible(jobs, a)
  {
    match a
    case Idle => if s.next < |jobs| && jobs[s.next].contents != [] then (s.(next := s.next + 1), Reading(s.next, 0)) else (s, Idle)
    case Reading(j, d) =>
      var existing := Get(s.files, jobs[j].output);
      if fails then (s.(cancelled := true), Idle)
      else if existing == Some(jobs[j].contents[d]) then (s.(same := s.same + 1), Advance(jobs[j], j, d))
      else if jobs[j].normalized && existing.Some? then (s.(cancelled := true), Idle)
      else (s, Writing(j, d, existing))
    case Writing(j, d, existing) =>
      if fails then (s.(cancelled := true), Idle)
      else
        var written := s.(files := s.files[jobs[j].output := jobs[j].contents[d]]);
        (if existing.None? then written.(created := s.created + 1) else written.(updated := s.updated + 1), Advance(jobs[j], j, d))
  }

  function Step(jobs: seq<Job>, e: Engine, t: Turn): Engine
    requires Sensible(jobs, e.first) && Sensible(jobs, e.second)
  {
    if t.first then
      var (s, a) := Act(jobs, e.shared, e.first, t.fails);
      Engine(s, a, e.second)
    else
      var (s, a) := Act(jobs, e.shared, e.second, t.fails);
      Engine(s, e.first, a)
  }

  // What a job has made of its file after writing `done` of its contents.
  predicate Shown(job: Job, start: Files, files: Files, done: nat)
    requires done <= |job.contents|
  {
    Get(files, job.output) == if done == 0 then Get(start, job.output) else Some(job.contents[done - 1])
  }

  predicate WorkerInv(jobs: seq<Job>, start: Files, s: Shared, a: Activity) {
    && Sensible(jobs, a)
    && (!a.Idle? ==> a.job < s.next && Shown(jobs[a.job], start, s.files, a.done))
    && (a.Writing? ==> a.existing == Get(s.files, jobs[a.job].output))
  }

  predicate On(a: Activity, j: nat) {
    !a.Idle? && a.job == j
  }

  // The contents a worker has still to write of its job.
  function Left(jobs: seq<Job>, a: Activity): nat
    requires Sensible(jobs, a)
  {
    if a.Idle? then 0 else |jobs[a.job].contents| - a.done
  }

  // Whether the file a worker is at is still to be created.
  function Unborn(jobs: seq<Job>, start: Files, a: Activity): nat
    requires Sensible(jobs, a)
  {
    if !a.Idle? && a.done == 0 && jobs[a.job].output !in start then 1 else 0
  }

  // How many of the first n jobs have no file at the start.
  function New(jobs: seq<Job>, start: Files, n: nat): nat
    requires n <= |jobs|
  {
    if n == 0 then 0 else New(jobs, start, n - 1) + if jobs[n - 1].output in start then 0 else 1
  }

  predicate Workable(jobs: seq<Job>) {
    DistinctOutputs(jobs) && forall job | job in jobs :: job.contents != []
  }

  // What every interleaving keeps of the files ...
  ghost predicate FilesInv(jobs: seq<Job>, start: Files, e: Engine) {
    var s := e.shared;
    && s.next <= |jobs|
    && WorkerInv(jobs, start, s, e.first) && WorkerInv(jobs, start, s, e.second)
    && (!e.first.Idle? && !e.second.Idle? ==> e.first.job != e.second.job)
    && (forall path | !HasJob(jobs, path) :: Get(s.files, path) == Get(start, path))
    && (forall j | s.next <= j < |jobs| :: Shown(jobs[j], start, s.files, 0))
    && (!s.cancelled ==>
          forall j | 0 <= j < s.next && !On(e.first, j) && !On(e.second, j) :: Shown(jobs[j], start, s.files, |jobs[j].contents|))
  }

  // ... and of the counters.
  predicate CountInv(jobs: seq<Job>, start: Files, e: Engine)
    requires e.shared.next <= |jobs| && Sensible(jobs, e.first) && Sensible(jobs, e.second)
  {
    var s := e.shared;
    !s.cancelled ==>
      && s.created + s.updated + s.same + Left(jobs, e.first) + Left(jobs, e.second) == Total(jobs, s.next)
      && s.created + Unborn(jobs, start, e.first) + Unborn(jobs, start, e.second) == New(jobs, start, s.next)
  }

  ghost predicate EngineInv(jobs: seq<Job>, start: Files, e: Engine) {
    FilesInv(jobs, start, e) && CountInv(jobs, start, e)
  }

  function Swapped(e: Engine): Engine {
    Engine(e.shared, e.second, e.first)
  }

  lemma TakeKeeps(jobs: seq<Job>, start: Files, e: Engine, fails: bool)
    requires Workable(jobs) && EngineInv(jobs, start, e) && e.first.Idle?
    ensures EngineInv(jobs, start, Step(jobs, e, Turn(true, fails)))
  {
    if e.shared.next < |jobs| {
      assert jobs[e.shared.next] in jobs;
    }
  }

  // The first worker has made its file hold its next content.
  ghost predicate ContentDone(jobs: seq<Job>, e: Engine, s: Shared)
    requires Sensible(jobs, e.first) && !e.first.Idle?
  {
    var job := jobs[e.first.job];
    && s.next == e.shared.next && s.cancelled == e.shared.cancelled
    && Get(s.files, job.output) == Some(job.contents[e.first.done])
    && forall path | path != job.output :: Get(s.files, path) == Get(e.shared.files, path)
  }

  lemma DoneKeepsFiles(jobs: seq<Job>, start: Files, e: Engine, s: Shared)
    requires Workable(jobs) && FilesInv(jobs, start, e) && !e.first.Idle? && ContentDone(jobs, e, s)
    ensures FilesInv(jobs, start, Engine(s, Advance(jobs[e.first.job], e.first.job, e.first.done), e.second))
  {
    var k, d := e.first.job, e.first.done;
    assert HasJob(jobs, jobs[k].output);
    forall j | 0 <= j < |jobs| && j != k
      ensures Get(s.files, jobs[j].output) == Get(e.shared.files, jobs[j].output)
    {
    }
    var a := Advance(jobs[k], k, d);
    assert WorkerInv(jobs, start, s, a);
    assert WorkerInv(jobs, start, s, e.second);
    assert a.Idle? ==> Shown(jobs[k], start, s.files, |jobs[k].contents|);
  }

  lemma DoneKeepsCounts(jobs: seq<Job>, start: Files, e: Engine, s: Shared)
    requires e.shared.next <= |jobs| && Sensible(jobs, e.first) && Sensible(jobs, e.second) && CountInv(jobs, start, e)
    requires !e.first.Idle? && s.next == e.shared.next && s.cancelled == e.shared.cancelled
    requires s.created + s.updated + s.same == e.shared.created + e.shared.updated + e.shared.same + 1
    requires s.created == e.shared.created + Unborn(jobs, start, e.first)
    ensures CountInv(jobs, start, Engine(s, Advance(jobs[e.first.job], e.first.job, e.first.done), e.second))
  {
  }

  lemma ReadKeeps(jobs: seq<Job>, start: Files, e: Engine)
    requires Workable(jobs) && EngineInv(jobs, start, e) && e.first.Reading?
    ensures EngineInv(jobs, start, Step(jobs, e, Turn(true, false)))
  {
    var job := jobs[e.first.job];
    var existing := Get(e.shared.files, job.output);
    if existing == Some(job.contents[e.first.done]) {
      DoneKeepsFiles(jobs, start, e, e.shared.(same := e.shared.same + 1));
      DoneKeepsCounts(jobs, start, e, e.shared.(same := e.shared.same + 1));
    } else if job.normalized && existing.Some? {
      FailureKeeps(jobs, start, e);
    } else {
      assert FilesInv(jobs, start, e.(first := Writing(e.first.job, e.first.done, existing)));
    }
  }

  lemma WriteKeeps(jobs: seq<Job>, start: Files, e: Engine)
    requires Workable(jobs) && EngineInv(jobs, start, e) && e.first.Writing?
    ensures EngineInv(jobs, start, Step(jobs, e, Turn(true, false)))
  {
    var s := Step(jobs, e, Turn(true, false)).shared;
    DoneKeepsFiles(jobs, start, e, s);
    DoneKeepsCounts(jobs, start, e, s);
  }

  lemma FailureKeeps(jobs: seq<Job>, start: Files, e: Engine)
    requires EngineInv(jobs, start, e)
    ensures EngineInv(jobs, start, Engine(e.shared.(cancelled := true), Idle, e.second))
  {
  }

  lemma FirstActs(jobs: seq<Job>, start: Files, e: Engine, fails: bool)
    requires Workable(jobs) && EngineInv(jobs, start, e)
    ensures EngineInv(jobs, start, Step(jobs, e, Turn(true, fails)))
  {
    if e.first.Idle? {
      TakeKeeps(jobs, start, e, fails);
    } else if fails {
      FailureKeeps(jobs, start, e);
    } else if e.first.Reading? {
      ReadKeeps(jobs, start, e);
    } else {
      WriteKeeps(jobs, start, e);
    }
  }

  lemma StepKeeps(jobs: seq<Job>, start: Files, e: Engine, t: Turn)
    requires Workable(jobs) && EngineInv(jobs, start, e)
    ensures EngineInv(jobs, start, Step(jobs, e, t))
  {
    if t.first {
      FirstActs(jobs, start, e, t.fails);
    } else {
      FirstActs(jobs, start, Swapped(e), t.fails);
      assert Step(jobs, e, t) == Swapped(Step(jobs, Swapped(e), Turn(true, t.fails)));
    }
  }

  function Begin(files: Files): Engine {
    Engine(Shared(0, files, 0, 0, 0, false), Idle, Idle)
  }

  // All the states of one run, under any schedule.
  predicate IsRun(jobs: seq<Job>, start: Files, states: seq<Engine>, turns: seq<Turn>) {
    && |states| == |turns| + 1 && states[0] == Begin(start)
    && forall i | 0 <= i < |turns| ::
         Sensible(jobs, states[i].first) && Sensible(jobs, states[i].second) && states[i + 1] == Step(jobs, states[i], turns[i])
  }

  lemma {:induction false} RunKeeps(jobs: seq<Job>, start: Files, states: seq<Engine>, turns: seq<Turn>, n: nat)
    requires Workable(jobs) && IsRun(jobs, start, states, turns) && n <= |turns|
    ensures EngineInv(jobs, start, states[n])
  {
    if n > 0 {
      RunKeeps(jobs, start, states, turns, n - 1);
      StepKeeps(jobs, start, states[n - 1], turns[n - 1]);
    } else {
      assert forall j | 0 <= j < |jobs| :: Shown(jobs[j], start, start, 0);
    }
  }

  /******* A finished synchronisation *******/

  predicate Finished(jobs: seq<Job>, e: Engine) {
    e.first.Idle? && e.second.Idle? && e.shared.next == |jobs| && !e.shared.cancelled
  }

  // Source i is the last in walk order for its path.
  predicate LastFor(sources: seq<Source>, i: nat) {
    i < |sources| && forall j | i < j < |sources| :: sources[j].output != sources[i].output
  }

  lemma {:induction false} LastContent(sources: seq<Source>, i: nat)
    requires LastFor(sources, i) && sources[i].output.Some?
    ensures var c := ContentsFor(sources, sources[i].output.value); c != [] && c[|c| - 1] == sources[i].content
  {
    if i < |sources| - 1 {
      assert sources[..|sources| - 1][i] == sources[i];
      LastContent(sources[..|sources| - 1], i);
    }
  }

  lemma JobsWorkable(sources: seq<Source>, plan: Plan)
    requires IsPlan(sources, plan)
    ensures Workable(plan.jobs)
  {
    forall job | job in plan.jobs
      ensures job.contents != []
    {
      assert IsJobFor(job, sources);
    }
  }

  // However the two workers interleave, a run that finishes leaves at every planned path the pointer to the
  // last source that maps there, touches nothing else, and counts every source once.
  lemma SyncResult(sources: seq<Source>, plan: Plan, start: Files, states: seq<Engine>, turns: seq<Turn>)
    requires IsPlan(sources, plan) && IsRun(plan.jobs, start, states, turns) && Finished(plan.jobs, states[|turns|])
    ensures var end := states[|turns|].shared;
      && (forall i: nat | LastFor(sources, i) :: sources[i].output.Some? && Get(end.files, sources[i].output.value) == Some(sources[i].content))
      && (forall path | !HasJob(plan.jobs, path) :: Get(end.files, path) == Get(start, path))
      && end.created + end.updated + end.same == |sources|
      && end.created == New(plan.jobs, start, |plan.jobs|)
  {
    JobsWorkable(sources, plan);
    RunKeeps(plan.jobs, start, states, turns, |turns|);
    var end := states[|turns|].shared;
    forall i: nat | LastFor(sources, i)
      ensures sources[i].output.Some? && Get(end.files, sources[i].output.value) == Some(sources[i].content)
    {
      assert sources[i] in sources;
      var j :| 0 <= j < |plan.jobs| && plan.jobs[j].output == sources[i].output.value;
      assert plan.jobs[j] in plan.jobs && IsJobFor(plan.jobs[j], sources);
      LastContent(sources, i);
      assert Shown(plan.jobs[j], start, end.files, |plan.jobs[j].contents|);
    }
  }

  // Running again over what a finished run left changes no file and creates none.
  lemma SyncAgain(sources: seq<Source>, plan: Plan, start: Files, states: seq<Engine>, turns: seq<Turn>, states2: seq<Engine>, turns2: seq<Turn>)
    requires IsPlan(sources, plan) && IsRun(plan.jobs, start, states, turns) && Finished(plan.jobs, states[|turns|])
    requires IsRun(plan.jobs, states[|turns|].shared.files, states2, turns2) && Finished(plan.jobs, states2[|turns2|])
    ensures states2[|turns2|].shared.files == states[|turns|].shared.files && states2[|turns2|].shared.created == 0
  {
    var jobs, once, twice := plan.jobs, states[|turns|].shared, states2[|turns2|].shared;
    JobsWorkable(sources, plan);
    RunKeeps(jobs, start, states, turns, |turns|);
    RunKeeps(jobs, once.files, states2, turns2, |turns2|);
    forall path
      ensures Get(twice.files, path) == Get(once.files, path)
    {
      if HasJob(jobs, path) {
        var j :| 0 <= j < |jobs| && jobs[j].output == path;
        assert jobs[j] in jobs;
        assert Shown(jobs[j], start, once.files, |jobs[j].contents|) && Shown(jobs[j], once.files, twice.files, |jobs[j].contents|);
      }
    }
    SameFiles(once.files, twice.files);
    forall j | 0 <= j < |jobs|
      ensures jobs[j].output in once.files
    {
      assert jobs[j] in jobs;
      assert Shown(jobs[j], start, once.files, |jobs[j].contents|);
    }
    NothingNew(jobs, once.files, |jobs|);
  }

  lemma SameFiles(a: Files, b: Files)
    requires forall path :: Get(a, path) == Get(b, path)
    ensures a == b
  {
    forall path
      ensures path in a <==> path in b
      ensures path in a ==> path in b && a[path] == b[path]
    {
      assert Get(a, path) == Get(b, path);
    }
  }

  lemma {:induction false} NothingNew(jobs: seq<Job>, files: Files, n: nat)
    requires n <= |jobs| && forall j | 0 <= j < n :: jobs[j].output in files
    ensures New(jobs, files, n) == 0
  {
    if n > 0 {
      NothingNew(jobs, files, n - 1);
    }
  }

  /******* Pruning *******/

  // The media file a pointer's text names, if it names one under the media root at all.
  type Targets = string -> Option<Path>

  // The media files that exist and that some pointer names.
  function Referenced(files: Files, target: Targets, media: set<Path>): set<Path> {
    set m | m in media && exists path | path in files :: target(files[path]) == Some(m)
  }

  // A pointer the walk removes.
  predicate Stale(files: Files, path: Path, expected: set<Path>, relocations: map<Path, Relocation>, target: Targets, media: set<Path>) {
    && path in files && path !in expected
    && if path in relocations then files[path] == relocations[path].content
       else target(files[path]).Some? && target(files[path]).value !in media
  }

  // A pointer with the text a relocation expects may be removed: the canonical pointer is there with the same text.
  predicate Replaced(files: Files, path: Path, relocations: map<Path, Relocation>) {
    path in relocations && path in files && files[path] == relocations[path].content ==>
      relocations[path].output in files && files[relocations[path].output] == files[path]
  }

  function Without(files: Files, gone: set<Path>): Files {
    map path | path in files && path !in gone :: files[path]
  }

  // Removing pointers that are replaced elsewhere or name nothing that exists loses no media file.
  lemma RemovalKeepsReferences(files: Files, path: Path, expected: set<Path>, relocations: map<Path, Relocation>, target: Targets, media: set<Path>)
    requires Stale(files, path, expected, relocations, target, media) && Replaced(files, path, relocations)
    requires forall p | p in relocations :: relocations[p].output in expected
    ensures Referenced(Without(files, {path}), target, media) == Referenced(files, target, media)
  {
    var after := Without(files, {path});
    forall m | m in Referenced(files, target, media)
      ensures m in Referenced(after, target, media)
    {
      var p :| p in files && target(files[p]) == Some(m);
      if p == path {
        var output := relocations[path].output;
        assert output in after && after[output] == files[path];
      } else {
        assert p in after;
      }
    }
  }

  function StalePaths(files: Files, walk: seq<Path>, expected: set<Path>, relocations: map<Path, Relocation>, target: Targets, media: set<Path>): set<Path> {
    set path | path in walk && Stale(files, path, expected, relocations, target, media)
  }

  // Removing stale pointers changes nothing for the next one: what replaces a pointer is expected, so it stays.
  lemma OneMorePath(files: Files, walk: seq<Path>, i: nat, expected: set<Path>, relocations: map<Path, Relocation>, target: Targets, media: set<Path>)
    requires i < |walk| && forall k, l | 0 <= k < l < |walk| :: walk[k] != walk[l]
    requires forall p | p in relocations :: relocations[p].output in expected
    ensures var gone := StalePaths(files, walk[..i], expected, relocations, target, media);
      && Stale(Without(files, gone), walk[i], expected, relocations, target, media) ==
           Stale(files, walk[i], expected, relocations, target, media)
      && (Replaced(files, walk[i], relocations) ==> Replaced(Without(files, gone), walk[i], relocations))
      && Without(files, StalePaths(files, walk[..i + 1], expected, relocations, target, media)) ==
           if Stale(files, walk[i], expected, relocations, target, media) then Without(Without(files, gone), {walk[i]}) else Without(files, gone)
  {
    var gone := StalePaths(files, walk[..i], expected, relocations, target, media);
    assert walk[..i + 1] == walk[..i] + [walk[i]];
    assert walk[i] !in walk[..i];
    assert StalePaths(files, walk[..i + 1], expected, relocations, target, media) ==
           gone + if Stale(files, walk[i], expected, relocations, target, media) then {walk[i]} else {};
  }

  function Outputs(jobs: seq<Job>): set<Path> {
    set job | job in jobs :: job.output
  }

  // What a plan relocates, it relocates to a path it expects.
  lemma RelocationsAreExpected(sources: seq<Source>, plan: Plan, path: Path)
    requires IsPlan(sources, plan) && path in plan.relocations
    ensures plan.relocations[path].output in Outputs(plan.jobs)
  {
    var s :| s in sources && Normalized(s) && s.original == path && s.output == Some(plan.relocations[path].output);
    var j :| 0 <= j < |plan.jobs| && plan.jobs[j].output == s.output.value;
    assert plan.jobs[j] in plan.jobs;
  }

  class StrmTree {
    const media: set<Path>
    const target: Targets
    // While set, the file system serves every call.
    const reliable: bool
    var files: Files

    constructor (media: set<Path>, target: Targets, reliable: bool, files: Files)
      ensures this.media == media && this.target == target && this.reliable == reliable && this.files == files
    {
      this.media, this.target, this.reliable, this.files := media, target, reliable, files;
    }

    // The walk over the pointers of one library removes the stale ones in order, up to the first failure.
    // Wherever it stops, the media files some pointer names are the same as before.
    method Prune(walk: seq<Path>, expected: set<Path>, relocations: map<Path, Relocation>) returns (removed: nat, ok: bool)
      requires forall p | p in relocations :: relocations[p].output in expected
      requires forall i, j | 0 <= i < j < |walk| :: walk[i] != walk[j]
      modifies this
      ensures exists n | 0 <= n <= |walk| :: (ok ==> n == |walk|) &&
                files == Without(old(files), StalePaths(old(files), walk[..n], expected, relocations, target, media))
      ensures Referenced(files, target, media) == Referenced(old(files), target, media)
      ensures |files| + removed == |old(files)|
      ensures reliable && (forall path | path in walk :: Replaced(old(files), path, relocations)) ==> ok
    {
      removed, ok := 0, true;
      for i := 0 to |walk|
        invariant files == Without(old(files), StalePaths(old(files), walk[..i], expected, relocations, target, media))
        invariant Referenced(files, target, media) == Referenced(old(files), target, media)
        invariant |files| + removed == |old(files)|
      {
        OneMorePath(old(files), walk, i, expected, relocations, target, media);
        assert walk[i] in walk;
        var gone;
        gone, ok := PruneOne(walk[i], expected, relocations);
        if !ok {
          return;
        }
        if gone {
          removed := removed + 1;
        }
      }
      assert walk[..|walk|] == walk;
    }

    method PruneOne(path: Path, expected: set<Path>, relocations: map<Path, Relocation>) returns (gone: bool, ok: bool)
      requires forall p | p in relocations :: relocations[p].output in expected
      modifies this
      ensures files == if gone then Without(old(files), {path}) else old(files)
      ensures gone ==> ok && |files| + 1 == |old(files)|
      ensures ok ==> gone == Stale(old(files), path, expected, relocations, target, media)
      ensures Referenced(files, target, media) == Referenced(old(files), target, media)
      ensures reliable && Replaced(old(files), path, relocations) ==> ok
    {
      gone, ok := false, true;
      if path in files && path !in expected {
        var served: bool := *;
        if !served && !reliable {
          ok := false;
        } else if Stale(files, path, expected, relocations, target, media) {
          ok := Replaced(files, path, relocations);
          if ok {
            RemovalKeepsReferences(files, path, expected, relocations, target, media);
            OneFewer(files, path);
            files := Without(files, {path});
            gone := true;
          }
        }
      }
    }
  }

  lemma OneFewer(files: Files, path: Path)
    requires path in files
    ensures |Without(files, {path})| == |files| - 1
  {
    assert Without(files, {path}).Keys == files.Keys - {path};
  }

  /******* Pruning after a synchronisation *******/

  // Every relocation's canonical pointer is there with its text.
  predicate RelocationsDone(files: Files, relocations: map<Path, Relocation>) {
    forall path | path in relocations :: Get(files, relocations[path].output) == Some(relocations[path].content)
  }

  lemma {:induction false} ContentIn(sources: seq<Source>, output: Path, s: Source)
    requires s in sources && s.output == Some(output)
    ensures s.content in ContentsFor(sources, output)
  {
    var front, last := sources[..|sources| - 1], sources[|sources| - 1];
    assert sources == front + [last];
    if s in front {
      ContentIn(front, output, s);
    }
  }

  // A finished synchronisation leaves every relocation done: a renamed source is alone on its path.
  lemma SyncRelocates(sources: seq<Source>, plan: Plan, start: Files, states: seq<Engine>, turns: seq<Turn>)
    requires IsPlan(sources, plan) && IsRun(plan.jobs, start, states, turns) && Finished(plan.jobs, states[|turns|])
    ensures RelocationsDone(states[|turns|].shared.files, plan.relocations)
  {
    var jobs, files := plan.jobs, states[|turns|].shared.files;
    forall path | path in plan.relocations
      ensures Get(files, plan.relocations[path].output) == Some(plan.relocations[path].content)
    {
      var j := RelocationJob(sources, plan, path);
      FinishedShows(sources, plan, start, states, turns, j);
    }
  }

  lemma RelocationJob(sources: seq<Source>, plan: Plan, path: Path) returns (j: nat)
    requires IsPlan(sources, plan) && path in plan.relocations
    ensures j < |plan.jobs| && plan.jobs[j].output == plan.relocations[path].output
    ensures plan.jobs[j].contents == [plan.relocations[path].content]
  {
    var r := plan.relocations[path];
    var s :| s in sources && Normalized(s) && s.original == path && s.output == Some(r.output) && s.content == r.content;
    j :| 0 <= j < |plan.jobs| && plan.jobs[j].output == r.output;
    assert plan.jobs[j] in plan.jobs && IsJobFor(plan.jobs[j], sources);
    ContentIn(sources, r.output, s);
  }

  lemma FinishedShows(sources: seq<Source>, plan: Plan, start: Files, states: seq<Engine>, turns: seq<Turn>, j: nat)
    requires IsPlan(sources, plan) && IsRun(plan.jobs, start, states, turns) && Finished(plan.jobs, states[|turns|]) && j < |plan.jobs|
    ensures var job := plan.jobs[j];
      job.contents != [] && Get(states[|turns|].shared.files, job.output) == Some(job.contents[|job.contents| - 1])
  {
    JobsWorkable(sources, plan);
    RunKeeps(plan.jobs, start, states, turns, |turns|);
    assert plan.jobs[j] in plan.jobs;
    assert Shown(plan.jobs[j], start, states[|turns|].shared.files, |plan.jobs[j].contents|);
  }

  method PruneWalks(tree: StrmTree, walks: seq<seq<Path>>, expected: set<Path>, relocations: map<Path, Relocation>)
    returns (removed: nat, ok: bool)
    requires forall path | path in relocations :: relocations[path].output in expected
    requires RelocationsDone(tree.files, relocations)
    requires forall w, i, j | 0 <= w < |walks| && 0 <= i < j < |walks[w]| :: walks[w][i] != walks[w][j]
    modifies tree
    ensures tree.reliable ==> ok
    ensures |tree.files| + removed == |old(tree.files)|
    ensures Referenced(tree.files, tree.target, tree.media) == Referenced(old(tree.files), tree.target, tree.media)
    ensures forall path | path in expected :: Get(tree.files, path) == Get(old(tree.files), path)
  {
    removed, ok := 0, true;
    for w := 0 to |walks|
      invariant |tree.files| + removed == |old(tree.files)| && (tree.reliable ==> ok)
      invariant Referenced(tree.files, tree.target, tree.media) == Referenced(old(tree.files), tree.target, tree.media)
      invariant forall path | path in expected :: Get(tree.files, path) == Get(old(tree.files), path)
    {
      var n;
      n, ok := tree.Prune(walks[w], expected, relocations);
      removed := removed + n;
      if !ok {
        break;
      }
    }
  }

  // A library's walk is pruned right after a finished synchronisation, first under the original and then under the
  // canonical directory: with a file system that serves every call nothing is refused, and every source that is the
  // last for its path keeps its pointer.
  method PruneAfterSync(sources: seq<Source>, plan: Plan, ghost start: Files, ghost states: seq<Engine>, ghost turns: seq<Turn>,
                        tree: StrmTree, walks: seq<seq<Path>>) returns (removed: nat, ok: bool)
    requires IsPlan(sources, plan) && IsRun(plan.jobs, start, states, turns) && Finished(plan.jobs, states[|turns|])
    requires tree.files == states[|turns|].shared.files
    requires forall w, i, j | 0 <= w < |walks| && 0 <= i < j < |walks[w]| :: walks[w][i] != walks[w][j]
    modifies tree
    ensures tree.reliable ==> ok
    ensures |tree.files| + removed == |old(tree.files)|
    ensures Referenced(tree.files, tree.target, tree.media) == Referenced(old(tree.files), tree.target, tree.media)
    ensures forall i: nat | LastFor(sources, i) ::
              sources[i].output.Some? && Get(tree.files, sources[i].output.value) == Some(sources[i].content)
  {
    SyncResult(sources, plan, start, states, turns);
    SyncRelocates(sources, plan, start, states, turns);
    var expected := Outputs(plan.jobs);
    forall path | path in plan.relocations
      ensures plan.relocations[path].output in expected
    {
      RelocationsAreExpected(sources, plan, path);
    }
    removed, ok := PruneWalks(tree, walks, expected, plan.relocations);
    forall i: nat | LastFor(sources, i)
      ensures sources[i].output.Some? && Get(tree.files, sources[i].output.value) == Some(sources[i].content)
    {
      LastIsExpected(sources, plan, i);
    }
  }

  lemma LastIsExpected(sources: seq<Source>, plan: Plan, i: nat)
    requires IsPlan(sources, plan) && LastFor(sources, i) && sources[i].output.Some?
    ensures sources[i].output.value in Outputs(plan.jobs)
  {
    assert sources[i] in sources;
    var j :| 0 <= j < |plan.jobs| && plan.jobs[j].output == sources[i].output.value;
    assert plan.jobs[j] in plan.jobs;
  }
}
