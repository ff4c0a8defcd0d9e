// The durable task and import tables, the single queue worker, and the checkpoints that keep a
// Quark share from being saved again. The save itself is sent by an HTTP helper that re-sends a request
// answered by 429 or a server error. A process crash may fall between any two steps: it loses the
// worker's memory and nothing else.
module ImportQueue {
  import opened Common

  datatype Status = Pending | Running | Completed | Failed | Cancelled

  // What a retry copies: the source and destination binding, and the selection.
  datatype Payload = Payload(binding: string, importAll: bool, manifest: seq<string>)

  datatype Task = Task(status: Status, attempts: nat, maxAttempts: nat, payload: Payload, prior: Option<Id>)

  datatype Row = Row(binding: string, owner: Option<nat>, roots: seq<Id>)

  // Where the run of one task stands: which durable step comes next. While sending, `sent` requests of the
  // save have been answered 429 or by a server error.
  datatype Point =
    | Starting | Claiming | Loading | CheckingPrior
    | Sending(sent: nat)
    | Persisting(saved: seq<Id>)
    | SaveFailed
    | Importing

  // What Quark answered to one request of the save: 429 or a server error, the saved roots, or anything else.
  datatype Answer = Busy | Saved(roots: seq<Id>) | Refused

  // One request of a save, sent by one run of one task. Quark may have carried out any of them.
  datatype Post = Post(task: Id, owner: nat, answer: Answer, carriedOut: bool)

  // How often the helper sends one request.
  const SENDS := 4

  // A run in memory. `attempts` is the count the worker read before it claimed the task, and
  // `roots` what it knows of the saved roots.
  datatype Run = Run(task: Id, attempts: nat, owner: nat, point: Point, roots: seq<Id>)

  datatype Queued = Queued(task: Id, attempts: nat)

  datatype State = State(
    tasks: map<Id, Task>,
    rows: map<Id, Row>,
    // The worker's memory; empty while the process is down.
    alive: bool,
    queue: seq<Queued>,
    run: Option<Run>,
    nextOwner: nat,
    // The share-save requests sent to Quark, in order.
    posts: seq<Post>)

  datatype Action =
    | Enqueue(task: Id, payload: Payload)
    | Retry(failed: Id, task: Id)
    | CancelPending(task: Id)
    | Start
    | Crash
    | ListPending(tasks: seq<Id>)
    | Begin
    | Advance
    | SendSave(answer: Answer, carriedOut: bool)
    | Finish
    | Abort(status: Status, recorded: bool, released: bool)

  const Empty := State(map[], map[], false, [], None, 0, [])

  /******* The steps *******/

  function Recovered(t: Task): Task {
    if t.status.Running? then
      t.(status := Pending, maxAttempts := if t.maxAttempts < t.attempts + 1 then t.attempts + 1 else t.maxAttempts)
    else t
  }

  // RecoverInterruptedAsyncTasks: running imports become pending again, and rows of pending tasks
  // lose their owner.
  function Recover(s: State): State {
    var tasks := map id | id in s.tasks :: Recovered(s.tasks[id]);
    s.(tasks := tasks,
       rows := map id | id in s.rows ::
           if id in tasks && tasks[id].status.Pending? then s.rows[id].(owner := None) else s.rows[id])
  }

  // Retry: only of a failed or cancelled task whose row, if there is one, knows its saved roots.
  predicate Retryable(s: State, failed: Id) {
    && failed in s.tasks && (s.tasks[failed].status.Failed? || s.tasks[failed].status.Cancelled?)
    && (failed in s.rows ==> s.rows[failed].roots != [])
  }

  function BeginTask(s: State): State
    requires s.queue != []
  {
    var next := s.queue[0];
    var rest := s.(queue := s.queue[1..]);
    if next.task in s.tasks && s.tasks[next.task].status.Pending? && s.tasks[next.task].attempts < s.tasks[next.task].maxAttempts then
      var t := s.tasks[next.task];
      rest.(tasks := s.tasks[next.task := t.(status := Running, attempts := t.attempts + 1)],
            run := Some(Run(next.task, next.attempts, s.nextOwner, Starting, [])),
            nextOwner := s.nextOwner + 1)
    else rest
  }

  // What the run decides about its prior task's checkpoint: an error, roots to inherit, or nothing.
  datatype PriorCheck = Reject | Inherit(roots: seq<Id>) | NoCheckpoint

  function CheckPrior(s: State, task: Id): PriorCheck
    requires task in s.tasks && task in s.rows
  {
    match s.tasks[task].prior
    case None => NoCheckpoint
    case Some(p) =>
      if p !in s.rows then NoCheckpoint
      else if s.rows[p].binding != s.rows[task].binding then Reject
      else if s.rows[p].roots == [] then Reject
      else if p !in s.tasks then Reject
      else if s.tasks[p].payload.importAll != s.tasks[task].payload.importAll then Reject
      else if s.tasks[p].payload.manifest != s.tasks[task].payload.manifest then Reject
      else Inherit(s.rows[p].roots)
  }

  predicate Owns(s: State, r: Run) {
    r.task in s.rows && s.rows[r.task].owner == Some(r.owner)
  }

  // One successful durable step of the run; `None` where the code returns an error instead.
  function AdvanceRun(s: State, r: Run): Option<State>
    requires r.task in s.tasks
  {
    match r.point
    case Starting =>
      // CreateCrossDriveImport
      if r.task in s.rows then
        if s.rows[r.task].binding == s.tasks[r.task].payload.binding
        then Some(s.(run := Some(r.(point := Claiming))))
        else None
      else Some(s.(rows := s.rows[r.task := Row(s.tasks[r.task].payload.binding, None, [])],
                   run := Some(r.(point := Claiming))))
    case Claiming =>
      // ClaimCrossDriveImport
      if r.task in s.rows && s.rows[r.task].owner.None?
      then Some(s.(rows := s.rows[r.task := s.rows[r.task].(owner := Some(r.owner))], run := Some(r.(point := Loading))))
      else None
    case Loading =>
      if r.task in s.rows
      then Some(s.(run := Some(r.(point := CheckingPrior, roots := s.rows[r.task].roots))))
      else None
    case CheckingPrior =>
      if r.roots != [] then Some(s.(run := Some(r.(point := Importing))))
      else if !Owns(s, r) then None
      else (
        match CheckPrior(s, r.task)
        case Reject => None
        case NoCheckpoint =>
          // A save that may have happened before a restart is never repeated.
          if r.attempts > 0 then None else Some(s.(run := Some(r.(point := Sending(0)))))
        case Inherit(roots) =>
          Some(s.(rows := s.rows[r.task := s.rows[r.task].(roots := roots)],
                  run := Some(r.(point := Importing, roots := roots)))))
    case Sending(_) => None
    case SaveFailed => None
    case Persisting(saved) =>
      // SaveCrossDriveRoots
      if Owns(s, r)
      then Some(s.(rows := s.rows[r.task := s.rows[r.task].(roots := saved)],
                   run := Some(r.(point := Importing, roots := saved))))
      else None
    case Importing => Some(s)
  }

  // After a request: send again, give up, or go on to persist what was saved, even if that is nothing.
  function Answered(sent: nat, answer: Answer): Point {
    match answer
    case Busy => if sent + 1 < SENDS then Sending(sent + 1) else SaveFailed
    case Saved(roots) => Persisting(roots)
    case Refused => SaveFailed
  }

  // One action; a disabled action changes nothing.
  function Step(s: State, a: Action): State {
    match a
    case Enqueue(id, payload) =>
      if id in s.tasks then s else s.(tasks := s.tasks[id := Task(Pending, 0, 1, payload, None)])
    case Retry(failed, id) =>
      if id in s.tasks || !Retryable(s, failed) then s
      else s.(tasks := s.tasks[id := Task(Pending, 0, 1, s.tasks[failed].payload, Some(failed))])
    case CancelPending(id) =>
      if id in s.tasks && s.tasks[id].status.Pending?
      then s.(tasks := s.tasks[id := s.tasks[id].(status := Cancelled)]) else s
    case Start => if s.alive then s else Recover(s).(alive := true)
    case Crash => s.(alive := false, queue := [], run := None)
    case ListPending(ids) =>
      if s.alive && s.run.None? && s.queue == [] && forall id | id in ids :: id in s.tasks && s.tasks[id].status.Pending?
      then s.(queue := Snapshots(s.tasks, ids)) else s
    case Begin =>
      if s.alive && s.run.None? && s.queue != [] then BeginTask(s) else s
    case Advance =>
      if s.alive && s.run.Some? && s.run.value.task in s.tasks then
        var next := AdvanceRun(s, s.run.value);
        if next.Some? then next.value else s
      else s
    case SendSave(answer, carriedOut) =>
      if s.alive && s.run.Some? && s.run.value.point.Sending? then
        s.(posts := s.posts + [Post(s.run.value.task, s.run.value.owner, answer, carriedOut)],
           run := Some(s.run.value.(point := Answered(s.run.value.point.sent, answer))))
      else s
    case Finish =>
      if s.alive && s.run.Some? && s.run.value.point.Importing? && s.run.value.task in s.tasks
      then s.(tasks := s.tasks[s.run.value.task := s.tasks[s.run.value.task].(status := Completed)],
              rows := Released(s.rows, s.run.value), run := None)
      else s
    case Abort(status, recorded, released) =>
      if s.alive && s.run.Some? && s.run.value.task in s.tasks && (status.Failed? || status.Cancelled?)
      then s.(tasks := if recorded then s.tasks[s.run.value.task := s.tasks[s.run.value.task].(status := status)] else s.tasks,
              rows := if released then Released(s.rows, s.run.value) else s.rows,
              run := None)
      else s
  }

  function Snapshots(tasks: map<Id, Task>, ids: seq<Id>): seq<Queued>
    requires forall id | id in ids :: id in tasks
  {
    seq(|ids|, i requires 0 <= i < |ids| => Queued(ids[i], tasks[ids[i]].attempts))
  }

  function Released(rows: map<Id, Row>, r: Run): map<Id, Row> {
    if r.task in rows && rows[r.task].owner == Some(r.owner) then rows[r.task := rows[r.task].(owner := None)] else rows
  }

  function Exec(s: State, actions: seq<Action>): State
    decreases |actions|
  {
    if actions == [] then s else Exec(Step(s, actions[0]), actions[1..])
  }

  /******* The invariant *******/

  // How many requests of its save a task has sent.
  function Sent(posts: seq<Post>, task: Id): nat {
    if posts == [] then 0
    else Sent(posts[..|posts| - 1], task) + if posts[|posts| - 1].task == task then 1 else 0
  }

  predicate Posted(posts: seq<Post>, task: Id) {
    exists i | 0 <= i < |posts| :: posts[i].task == task
  }

  // All requests of a task are one burst: sent by one run, and only the last answered otherwise than 429 or by
  // a server error.
  predicate OneBurst(posts: seq<Post>) {
    forall i, j | 0 <= i < j < |posts| && posts[i].task == posts[j].task :: posts[i].owner == posts[j].owner && posts[i].answer.Busy?
  }

  predicate Terminal(t: Task) {
    t.status.Failed? || t.status.Cancelled?
  }

  // No run has yet reached the remote save.
  predicate BeforeSave(p: Point) {
    p.Starting? || p.Claiming? || p.Loading? || p.CheckingPrior?
  }

  ghost predicate WorkerInv(s: State) {
    && (!s.alive ==> s.run.None? && s.queue == [])
    && (forall q | q in s.queue :: q.task in s.tasks && (s.tasks[q.task].status.Pending? ==> s.tasks[q.task].attempts == q.attempts))
    && (s.run.Some? ==> RunInv(s, s.run.value))
  }

  ghost predicate RunInv(s: State, r: Run) {
    && r.task in s.tasks && s.tasks[r.task].status.Running? && s.tasks[r.task].attempts >= 1 && r.owner < s.nextOwner
    && (BeforeSave(r.point) && r.attempts == 0 ==> !Posted(s.posts, r.task))
    && (r.point.Sending? ==>
          && r.attempts == 0 && r.task in s.rows
          && (s.tasks[r.task].prior.Some? ==> s.tasks[r.task].prior.value !in s.rows)
          && Resending(s.posts, r))
    && (r.point.Persisting? ==> Posted(s.posts, r.task))
  }

  // The requests sent so far are this run's, and each was answered 429 or by a server error.
  predicate Resending(posts: seq<Post>, r: Run)
    requires r.point.Sending?
  {
    && r.point.sent < SENDS && Sent(posts, r.task) == r.point.sent
    && forall i | 0 <= i < |posts| && posts[i].task == r.task :: posts[i].owner == r.owner && posts[i].answer.Busy?
  }

  predicate TaskInv(s: State) {
    && (forall i | 0 <= i < |s.posts| :: s.posts[i].task in s.tasks && s.posts[i].task in s.rows && s.tasks[s.posts[i].task].attempts >= 1)
    && (forall id | id in s.tasks && s.tasks[id].prior.Some? ::
          && s.tasks[id].prior.value in s.tasks && Terminal(s.tasks[s.tasks[id].prior.value])
          && s.tasks[id].prior.value != id)
    && (forall id | id in s.rows :: id in s.tasks)
  }

  ghost predicate PostsInv(posts: seq<Post>) {
    OneBurst(posts) && forall task: Id :: Sent(posts, task) <= SENDS
  }

  // A retry whose prior task has a row never submits, and only ever knows that row's roots.
  predicate LineageInv(s: State) {
    forall id | id in s.tasks && s.tasks[id].prior.Some? && s.tasks[id].prior.value in s.rows ::
      && !Posted(s.posts, id)
      && (id in s.rows && s.rows[id].roots != [] ==> s.rows[id].roots == s.rows[s.tasks[id].prior.value].roots)
  }

  ghost predicate Inv(s: State) {
    WorkerInv(s) && TaskInv(s) && LineageInv(s) && PostsInv(s.posts)
  }

  lemma EnqueueKeeps(s: State, a: Action)
    requires Inv(s) && a.Enqueue?
    ensures Inv(Step(s, a))
  {
  }

  lemma RetryKeeps(s: State, a: Action)
    requires Inv(s) && a.Retry?
    ensures Inv(Step(s, a))
  {
  }

  lemma CancelKeeps(s: State, a: Action)
    requires Inv(s) && a.CancelPending?
    ensures Inv(Step(s, a))
  {
  }

  lemma ListKeeps(s: State, a: Action)
    requires Inv(s) && a.ListPending?
    ensures Inv(Step(s, a))
  {
  }

  lemma StartKeeps(s: State)
    requires Inv(s)
    ensures Inv(Step(s, Start))
  {
  }

  lemma CrashKeeps(s: State)
    requires Inv(s)
    ensures Inv(Step(s, Crash))
  {
  }

  lemma BeginKeeps(s: State)
    requires Inv(s)
    ensures Inv(Step(s, Begin))
  {
  }

  lemma CreateRowKeeps(s: State)
    requires Inv(s) && s.run.Some? && s.run.value.point.Starting?
    ensures Inv(Step(s, Advance))
  {
  }

  // The run goes on to send the save.
  lemma NoCheckpointKeeps(s: State, r: Run)
    requires Inv(s) && s.run == Some(r) && r.point.CheckingPrior? && r.task in s.rows && r.attempts == 0
    requires CheckPrior(s, r.task).NoCheckpoint?
    ensures Inv(s.(run := Some(r.(point := Sending(0)))))
  {
    SentIsPosted(s.posts, r.task);
  }

  // The run takes over its prior's roots.
  lemma InheritKeeps(s: State, r: Run)
    requires Inv(s) && s.run == Some(r) && r.point.CheckingPrior? && Owns(s, r) && CheckPrior(s, r.task).Inherit?
    ensures var roots := CheckPrior(s, r.task).roots;
      Inv(s.(rows := s.rows[r.task := s.rows[r.task].(roots := roots)], run := Some(r.(point := Importing, roots := roots))))
  {
  }

  lemma CheckPriorKeeps(s: State)
    requires Inv(s) && s.run.Some? && s.run.value.point.CheckingPrior?
    ensures Inv(Step(s, Advance))
  {
    var r := s.run.value;
    if r.roots == [] && Owns(s, r) {
      match CheckPrior(s, r.task)
      case Reject =>
      case NoCheckpoint =>
        if r.attempts == 0 {
          NoCheckpointKeeps(s, r);
        }
      case Inherit(_) => InheritKeeps(s, r);
    }
  }

  // The checkpoints after the save.
  lemma PersistKeeps(s: State)
    requires Inv(s) && s.run.Some? && s.run.value.point.Persisting?
    ensures Inv(Step(s, Advance))
  {
  }

  lemma AdvanceKeeps(s: State)
    requires Inv(s)
    ensures Inv(Step(s, Advance))
  {
    if s.run.Some? && s.run.value.point.Starting? {
      CreateRowKeeps(s);
    } else if s.run.Some? && s.run.value.point.CheckingPrior? {
      CheckPriorKeeps(s);
    } else if s.run.Some? && s.run.value.point.Persisting? {
      PersistKeeps(s);
    }
  }

  lemma {:induction false} SentIsPosted(posts: seq<Post>, task: Id)
    ensures Posted(posts, task) <==> Sent(posts, task) > 0
  {
    if posts != [] {
      var front := posts[..|posts| - 1];
      SentIsPosted(front, task);
      if Posted(posts, task) {
        var i :| 0 <= i < |posts| && posts[i].task == task;
        assert i < |front| ==> front[i].task == task;
      }
      if Posted(front, task) {
        var i :| 0 <= i < |front| && front[i].task == task;
        assert posts[i].task == task;
      }
    }
  }

  lemma OneMorePost(posts: seq<Post>, p: Post)
    ensures forall task :: Sent(posts + [p], task) == Sent(posts, task) + if p.task == task then 1 else 0
    ensures forall task :: Posted(posts + [p], task) <==> Posted(posts, task) || p.task == task
  {
    var more := posts + [p];
    assert more[..|posts|] == posts;
    forall task
      ensures Posted(more, task) <==> Posted(posts, task) || p.task == task
    {
      if Posted(posts, task) {
        var i :| 0 <= i < |posts| && posts[i].task == task;
        assert more[i].task == task;
      }
      assert more[|posts|].task == p.task;
    }
  }

  // One more request of a burst.
  lemma SendKeepsPosts(posts: seq<Post>, r: Run, p: Post)
    requires PostsInv(posts) && r.point.Sending? && Resending(posts, r) && p.task == r.task && p.owner == r.owner
    ensures PostsInv(posts + [p])
    ensures p.answer.Busy? && r.point.sent + 1 < SENDS ==> Resending(posts + [p], r.(point := Sending(r.point.sent + 1)))
  {
    OneMorePost(posts, p);
  }

  lemma SendKeeps(s: State, a: Action)
    requires Inv(s) && a.SendSave?
    ensures Inv(Step(s, a))
  {
    if s.alive && s.run.Some? && s.run.value.point.Sending? {
      var r := s.run.value;
      var p := Post(r.task, r.owner, a.answer, a.carriedOut);
      OneMorePost(s.posts, p);
      SendKeepsPosts(s.posts, r, p);
    }
  }

  lemma FinishKeeps(s: State)
    requires Inv(s)
    ensures Inv(Step(s, Finish))
  {
  }

  lemma AbortKeeps(s: State, a: Action)
    requires Inv(s) && a.Abort?
    ensures Inv(Step(s, a))
  {
  }

  lemma StepKeeps(s: State, a: Action)
    requires Inv(s)
    ensures Inv(Step(s, a))
  {
    match a
    case Enqueue(_, _) => EnqueueKeeps(s, a);
    case Retry(_, _) => RetryKeeps(s, a);
    case CancelPending(_) => CancelKeeps(s, a);
    case ListPending(_) => ListKeeps(s, a);
    case Start => StartKeeps(s);
    case Crash => CrashKeeps(s);
    case Begin => BeginKeeps(s);
    case Advance => AdvanceKeeps(s);
    case SendSave(_, _) => SendKeeps(s, a);
    case Finish => FinishKeeps(s);
    case Abort(_, _, _) => AbortKeeps(s, a);
  }

  lemma {:induction false} ExecKeeps(s: State, actions: seq<Action>)
    requires Inv(s)
    ensures Inv(Exec(s, actions))
    decreases |actions|
  {
    if actions != [] {
      StepKeeps(s, actions[0]);
      ExecKeeps(Step(s, actions[0]), actions[1..]);
    }
  }

  /******* Theorems over whole runs *******/

  // Over any crashes and restarts, all requests of a task's save are one burst of one run, at most four, each but
  // the last answered 429 or by a server error.
  lemma OneBurstPerTask(actions: seq<Action>)
    ensures OneBurst(Exec(Empty, actions).posts)
    ensures forall task :: Sent(Exec(Empty, actions).posts, task) <= SENDS
  {
    ExecKeeps(Empty, actions);
  }

  // A retry whose prior task reached its row never sends the save, and the roots it comes to know are the
  // prior task's.
  lemma RetryInheritsOnly(actions: seq<Action>, task: Id, prior: Id)
    requires var s := Exec(Empty, actions);
      task in s.tasks && s.tasks[task].prior == Some(prior) && prior in s.rows
    ensures var s := Exec(Empty, actions);
      && !Posted(s.posts, task)
      && (task in s.rows && s.rows[task].roots != [] ==> s.rows[task].roots == s.rows[prior].roots)
  {
    ExecKeeps(Empty, actions);
  }

  // A first task and its successive retries.
  predicate Lineage(s: State, chain: seq<Id>) {
    && (forall i | 0 <= i < |chain| :: chain[i] in s.tasks)
    && forall i | 0 < i < |chain| :: s.tasks[chain[i]].prior == Some(chain[i - 1])
  }

  // If every generation that was retried reached its row, the whole lineage sends the save in one burst of its
  // first generation at most, and every generation works on the same saved roots.
  lemma LineageBurstsOnce(actions: seq<Action>, chain: seq<Id>, i: nat)
    requires var s := Exec(Empty, actions);
      Lineage(s, chain) && i < |chain| && forall j | 0 <= j < |chain| - 1 :: chain[j] in s.rows
    ensures var s := Exec(Empty, actions);
      && Sent(s.posts, chain[i]) <= (if i == 0 then SENDS else 0)
      && (chain[i] in s.rows && s.rows[chain[i]].roots != [] ==> s.rows[chain[i]].roots == s.rows[chain[0]].roots)
  {
    var s := Exec(Empty, actions);
    ExecKeeps(Empty, actions);
    SentIsPosted(s.posts, chain[i]);
    SameRootsAlong(s, chain, i);
  }

  lemma {:induction false} SameRootsAlong(s: State, chain: seq<Id>, i: nat)
    requires Inv(s) && Lineage(s, chain) && i < |chain| && forall j | 0 <= j < |chain| - 1 :: chain[j] in s.rows
    ensures chain[i] in s.rows && s.rows[chain[i]].roots != [] ==> s.rows[chain[i]].roots == s.rows[chain[0]].roots
    ensures i > 0 ==> !Posted(s.posts, chain[i])
  {
    if i > 0 {
      assert s.tasks[chain[i]].prior == Some(chain[i - 1]);
      SameRootsAlong(s, chain, i - 1);
    }
  }

  /******* Exactly when a save is sent once *******/

  // The run gives up, or the process dies.
  predicate Ends(a: Action) {
    a.Crash? || (a.Abort? && (a.status.Failed? || a.status.Cancelled?))
  }

  // The next request of the burst is sent before the run ends.
  predicate ResendsIn(future: seq<Action>) {
    exists n | 0 <= n < |future| :: future[n].SendSave? && forall m | 0 <= m < n :: !Ends(future[m])
  }

  lemma ResendsLater(future: seq<Action>)
    requires future != [] && !future[0].SendSave?
    ensures ResendsIn(future) <==> !Ends(future[0]) && ResendsIn(future[1..])
  {
    var rest := future[1..];
    if ResendsIn(future) {
      var n :| 0 <= n < |future| && future[n].SendSave? && forall m | 0 <= m < n :: !Ends(future[m]);
      assert rest[n - 1].SendSave? && forall m | 0 <= m < n - 1 :: rest[m] == future[m + 1];
    }
    if !Ends(future[0]) && ResendsIn(rest) {
      var n :| 0 <= n < |rest| && rest[n].SendSave? && forall m | 0 <= m < n :: !Ends(rest[m]);
      assert future[n + 1].SendSave?;
      forall m | 0 <= m < n + 1
        ensures !Ends(future[m])
      {
        assert m > 0 ==> future[m] == rest[m - 1];
      }
    }
  }

  predicate IsSending(s: State, task: Id) {
    s.run.Some? && s.run.value.task == task && s.run.value.point.Sending?
  }

  // A task whose burst is over never sends again.
  lemma {:induction false} BurstIsOver(s: State, actions: seq<Action>, task: Id)
    requires Inv(s) && Posted(s.posts, task) && !IsSending(s, task)
    ensures Sent(Exec(s, actions).posts, task) == Sent(s.posts, task)
    decreases |actions|
  {
    if actions != [] {
      StepKeeps(s, actions[0]);
      BurstStaysOver(s, actions[0], task);
      BurstIsOver(Step(s, actions[0]), actions[1..], task);
    }
  }

  // Only a request adds to the requests.
  lemma StepPosts(s: State, a: Action)
    ensures var t := Step(s, a);
      if a.SendSave? && s.alive && s.run.Some? && s.run.value.point.Sending?
      then t.posts == s.posts + [Post(s.run.value.task, s.run.value.owner, a.answer, a.carriedOut)]
      else t.posts == s.posts
  {
  }

  // A run comes to send from the check of its prior, and then has sent nothing yet.
  lemma AdvanceSending(s: State, r: Run)
    requires s.run == Some(r) && r.task in s.tasks
    ensures var next := AdvanceRun(s, r);
      next.Some? && next.value.run.Some? && next.value.run.value.point.Sending? ==>
        next.value.run.value.task == r.task && ((r.point.CheckingPrior? && r.attempts == 0) || next.value.run == s.run)
  {
  }

  lemma StepSending(s: State, a: Action, task: Id)
    requires Inv(s) && Posted(s.posts, task) && !IsSending(s, task)
    ensures !IsSending(Step(s, a), task)
  {
    if a.Advance? && s.run.Some? {
      AdvanceSending(s, s.run.value);
    }
  }

  lemma BurstStaysOver(s: State, a: Action, task: Id)
    requires Inv(s) && Posted(s.posts, task) && !IsSending(s, task)
    ensures var t := Step(s, a); Sent(t.posts, task) == Sent(s.posts, task) && Posted(t.posts, task) && !IsSending(t, task)
  {
    StepSending(s, a, task);
    StepPosts(s, a);
    if a.SendSave? && s.run.Some? {
      OneMorePost(s.posts, Post(s.run.value.task, s.run.value.owner, a.answer, a.carriedOut));
    }
  }

  lemma {:induction false} SentGrows(s: State, actions: seq<Action>, task: Id)
    ensures Sent(s.posts, task) <= Sent(Exec(s, actions).posts, task)
    decreases |actions|
  {
    if actions != [] {
      var a := actions[0];
      StepPosts(s, a);
      if a.SendSave? && s.run.Some? {
        OneMorePost(s.posts, Post(s.run.value.task, s.run.value.owner, a.answer, a.carriedOut));
      }
      SentGrows(Step(s, a), actions[1..], task);
    }
  }

  // Any other action that does not end the run leaves it sending.
  lemma StillSending(s: State, a: Action, task: Id)
    requires Inv(s) && s.alive && IsSending(s, task) && !a.SendSave?
    ensures var t := Step(s, a); t.posts == s.posts && if Ends(a) then !IsSending(t, task) else t.alive && IsSending(t, task)
  {
  }

  // While a burst waits to send again, it does so exactly if the run has not ended before.
  lemma {:induction false} ResendIff(s: State, future: seq<Action>, task: Id)
    requires Inv(s) && s.alive && IsSending(s, task) && Posted(s.posts, task)
    ensures Sent(Exec(s, future).posts, task) == Sent(s.posts, task) <==> !ResendsIn(future)
    decreases |future|
  {
    if future != [] {
      var a := future[0];
      var t := Step(s, a);
      StepKeeps(s, a);
      if a.SendSave? {
        StepPosts(s, a);
        OneMorePost(s.posts, Post(task, s.run.value.owner, a.answer, a.carriedOut));
        SentGrows(t, future[1..], task);
        assert future[0].SendSave?;
      } else {
        ResendsLater(future);
        StillSending(s, a, task);
        if Ends(a) {
          BurstIsOver(t, future[1..], task);
        } else {
          ResendIff(t, future[1..], task);
        }
      }
    }
  }

  // A task's save is sent exactly once if and only if its first request is answered neither 429 nor by a server
  // error, or the run ends before the next one.
  lemma SentOnceIff(past: seq<Action>, answer: Answer, carriedOut: bool, future: seq<Action>)
    requires var s := Exec(Empty, past); s.alive && s.run.Some? && s.run.value.point == Sending(0)
    ensures var s := Exec(Empty, past);
      Sent(Exec(Step(s, SendSave(answer, carriedOut)), future).posts, s.run.value.task) == 1 <==> !answer.Busy? || !ResendsIn(future)
  {
    var s := Exec(Empty, past);
    ExecKeeps(Empty, past);
    var r := s.run.value;
    var t := Step(s, SendSave(answer, carriedOut));
    StepKeeps(s, SendSave(answer, carriedOut));
    OneMorePost(s.posts, Post(r.task, r.owner, answer, carriedOut));
    if answer.Busy? {
      ResendIff(t, future, r.task);
    } else {
      BurstIsOver(t, future, r.task);
    }
  }

  // Without any crash one run of one task can save the share twice.
  lemma OneTaskCanSaveTwice()
    ensures exists actions :: CrashFree(actions) && Exec(Empty, actions).posts ==
               [Post("task", 0, Busy, true), Post("task", 0, Saved(["root"]), true)]
  {
    var payload := Payload("binding", false, ["leaf"]);
    var s1 := Empty.(tasks := map["task" := Task(Pending, 0, 1, payload, None)], alive := true);
    var a1 := [Enqueue("task", payload), Start];
    ExecTrail([Empty, Step(Empty, a1[0]), s1], a1);
    var a2 := SendTwice(s1, "task");
    ExecConcat(Empty, a1, a2);
    assert CrashFree(a1 + a2);
  }

  lemma SendTwice(s: State, task: Id) returns (actions: seq<Action>)
    requires Idle(s) && Fresh(s, task)
    ensures CrashFree(actions)
    ensures Exec(s, actions).posts == s.posts + [Post(task, s.nextOwner, Busy, true), Post(task, s.nextOwner, Saved(["root"]), true)]
  {
    var first, again := SendRun(task, Busy), SendSave(Saved(["root"]), true);
    FreshTaskSends(s, task, Busy);
    var t := Exec(s, first);
    StepPosts(t, again);
    ExecTrail([t, Step(t, again)], [again]);
    ExecConcat(s, first, [again]);
    actions := first + [again];
  }

  /******* Exactly when a retry can send the save again *******/

  predicate Idle(s: State) {
    s.alive && s.run.None? && s.queue == []
  }

  // One undisturbed run of a pending task, up to and including the first request of the save.
  function SendRun(task: Id, answer: Answer): seq<Action> {
    [ListPending([task]), Begin, Advance, Advance, Advance, Advance, SendSave(answer, true)]
  }

  predicate Fresh(s: State, task: Id) {
    && task in s.tasks && s.tasks[task].status.Pending? && s.tasks[task].attempts == 0 && s.tasks[task].maxAttempts >= 1
    && task !in s.rows
    && (s.tasks[task].prior.Some? ==> s.tasks[task].prior.value !in s.rows && s.tasks[task].prior.value != task)
  }

  // A run's states, one after each action.
  lemma {:induction false} ExecTrail(states: seq<State>, actions: seq<Action>)
    requires |states| == |actions| + 1
    requires forall i | 0 <= i < |actions| :: states[i + 1] == Step(states[i], actions[i])
    ensures Exec(states[0], actions) == states[|actions|]
    decreases |actions|
  {
    if actions != [] {
      ExecTrail(states[1..], actions[1..]);
    }
  }

  // The pending task, picked up by the worker.
  function PickedUp(s: State, task: Id): State
    requires task in s.tasks
  {
    s.(tasks := s.tasks[task := s.tasks[task].(status := Running, attempts := 1)],
       run := Some(Run(task, 0, s.nextOwner, Starting, [])),
       nextOwner := s.nextOwner + 1)
  }

  function At(s: State, task: Id, point: Point, owner: Option<nat>): State
    requires task in s.tasks
  {
    PickedUp(s, task).(rows := s.rows[task := Row(s.tasks[task].payload.binding, owner, [])],
                       run := Some(Run(task, 0, s.nextOwner, point, [])))
  }

  lemma PickUp(s: State, task: Id)
    requires Idle(s) && Fresh(s, task)
    ensures Step(Step(s, ListPending([task])), Begin) == PickedUp(s, task)
  {
    var listed := Step(s, ListPending([task]));
    assert listed.queue == [Queued(task, 0)];
    assert listed.queue[1..] == [];
  }

  lemma Approach(s: State, task: Id)
    requires Fresh(s, task) && s.alive
    ensures Step(PickedUp(s, task), Advance) == At(s, task, Claiming, None)
    ensures Step(At(s, task, Claiming, None), Advance) == At(s, task, Loading, Some(s.nextOwner))
    ensures Step(At(s, task, Loading, Some(s.nextOwner)), Advance) == At(s, task, CheckingPrior, Some(s.nextOwner))
    ensures Step(At(s, task, CheckingPrior, Some(s.nextOwner)), Advance) == At(s, task, Sending(0), Some(s.nextOwner))
  {
  }

  lemma FreshTaskSends(s: State, task: Id, answer: Answer)
    requires Idle(s) && Fresh(s, task)
    ensures Exec(s, SendRun(task, answer)) ==
            At(s, task, Answered(0, answer), Some(s.nextOwner)).(posts := s.posts + [Post(task, s.nextOwner, answer, true)])
  {
    var owner := Some(s.nextOwner);
    PickUp(s, task);
    Approach(s, task);
    var last := At(s, task, Answered(0, answer), owner).(posts := s.posts + [Post(task, s.nextOwner, answer, true)]);
    assert Step(At(s, task, Sending(0), owner), SendSave(answer, true)) == last;
    ExecTrail([s, Step(s, ListPending([task])), PickedUp(s, task), At(s, task, Claiming, None), At(s, task, Loading, owner),
               At(s, task, CheckingPrior, owner), At(s, task, Sending(0), owner), last], SendRun(task, answer));
  }

  // Tasks and rows are never dropped, and a task's prior never changes.
  lemma StepGrows(s: State, a: Action, id: Id)
    ensures id in s.tasks ==> id in Step(s, a).tasks && Step(s, a).tasks[id].prior == s.tasks[id].prior
    ensures id in s.rows ==> id in Step(s, a).rows
  {
  }

  lemma {:induction false} ExecGrows(s: State, actions: seq<Action>, id: Id)
    ensures id in s.tasks ==> id in Exec(s, actions).tasks && Exec(s, actions).tasks[id].prior == s.tasks[id].prior
    ensures id in s.rows ==> id in Exec(s, actions).rows
    decreases |actions|
  {
    if actions != [] {
      StepGrows(s, actions[0], id);
      ExecGrows(Step(s, actions[0]), actions[1..], id);
    }
  }

  // The task waits: nothing in memory is about it.
  predicate Waits(s: State, task: Id) {
    && Fresh(s, task) && (s.run.Some? ==> s.run.value.task != task)
    && forall q | q in s.queue :: q.task != task
  }

  predicate CrashFree(actions: seq<Action>) {
    forall a | a in actions :: !a.Crash?
  }

  const FAIL := Abort(Failed, true, true)

  lemma StartLeaves(s: State, task: Id)
    requires Inv(s) && Waits(s, task) && !s.alive
    ensures var t := Step(s, Start); Inv(t) && Waits(t, task) && t.alive && t.run.None?
  {
    StepKeeps(s, Start);
  }

  lemma FailLeaves(s: State, task: Id)
    requires Inv(s) && Waits(s, task) && s.alive
    ensures var t := Step(s, FAIL); Inv(t) && Waits(t, task) && t.alive && t.run.None? && t.queue == s.queue
  {
    StepKeeps(s, FAIL);
  }

  lemma BeginLeaves(s: State, task: Id)
    requires Inv(s) && Waits(s, task) && s.alive && s.run.None? && s.queue != []
    ensures var t := Step(s, Begin); Inv(t) && Waits(t, task) && t.alive && t.queue == s.queue[1..]
  {
    StepKeeps(s, Begin);
    assert s.queue[0] in s.queue && forall q | q in s.queue[1..] :: q in s.queue;
  }

  // The tasks before it in the queue begin and fail, one by one.
  lemma {:induction false} QueueEmpties(s: State, task: Id) returns (actions: seq<Action>, end: State)
    requires Inv(s) && Waits(s, task) && s.alive && s.run.None?
    ensures CrashFree(actions) && Exec(s, actions) == end && Idle(end) && Inv(end) && Fresh(end, task)
    decreases |s.queue|
  {
    actions, end := [], s;
    if s.queue != [] {
      var begun := Step(s, Begin);
      BeginLeaves(s, task);
      var failed := Step(begun, FAIL);
      FailLeaves(begun, task);
      var more;
      more, end := QueueEmpties(failed, task);
      ExecTrail([s, begun, failed], [Begin, FAIL]);
      ExecConcat(s, [Begin, FAIL], more);
      actions := [Begin, FAIL] + more;
    }
  }

  // Without a crash the worker comes to be idle.
  lemma BecomesIdle(s: State, task: Id) returns (actions: seq<Action>, end: State)
    requires Inv(s) && Waits(s, task)
    ensures CrashFree(actions) && Exec(s, actions) == end && Idle(end) && Inv(end) && Fresh(end, task)
  {
    var first := if s.alive then FAIL else Start;
    var t := Step(s, first);
    if s.alive {
      FailLeaves(s, task);
    } else {
      StartLeaves(s, task);
    }
    var more;
    more, end := QueueEmpties(t, task);
    ExecTrail([s, t], [first]);
    ExecConcat(s, [first], more);
    actions := [first] + more;
  }

  // A retry of `failed`, whenever it is made, can ever send the save if and only if `failed` never reached its
  // row; it then can even without a crash.
  lemma RetrySendsIff(past: seq<Action>, failed: Id, task: Id)
    requires var s := Exec(Empty, past); Retryable(s, failed) && task !in s.tasks
    ensures var t := Step(Exec(Empty, past), Retry(failed, task));
      && (failed !in t.rows <==> exists future :: CrashFree(future) && Posted(Exec(t, future).posts, task))
      && (failed in t.rows ==> forall future :: !Posted(Exec(t, future).posts, task))
  {
    var s := Exec(Empty, past);
    ExecKeeps(Empty, past);
    var t := Step(s, Retry(failed, task));
    StepKeeps(s, Retry(failed, task));
    if failed in s.rows {
      forall future
        ensures !Posted(Exec(t, future).posts, task)
      {
        ExecKeeps(t, future);
        ExecGrows(t, future, task);
        ExecGrows(t, future, failed);
      }
    } else {
      var future := WaitingCanSend(t, task);
    }
  }

  lemma WaitingCanSend(s: State, task: Id) returns (future: seq<Action>)
    requires Inv(s) && Waits(s, task)
    ensures CrashFree(future) && Posted(Exec(s, future).posts, task)
  {
    var before, idle := BecomesIdle(s, task);
    var run := SendRun(task, Saved(["root"]));
    FreshTaskSends(idle, task, Saved(["root"]));
    ExecConcat(s, before, run);
    future := before + run;
    assert Exec(s, future).posts[|idle.posts|].task == task;
  }

  // Only one generation back is consulted: a retry that fails before its row lets the next one save
  // the same share again.
  lemma ThirdGenerationCanResubmit()
    ensures exists actions :: Posted(Exec(Empty, actions).posts, "first") && Posted(Exec(Empty, actions).posts, "third") &&
                              Lineage(Exec(Empty, actions), ["first", "second", "third"])
  {
    var a, s := FirstSends();
    var b, t := FailThenRetryTwice(s);
    ExecConcat(Empty, a, b);
    var c := ThirdSends(t);
    ExecConcat(Empty, a + b, c);
    assert Exec(Empty, a + b + c) == Exec(t, c);
  }

  lemma FirstSends() returns (actions: seq<Action>, end: State)
    ensures Exec(Empty, actions) == end
    ensures end.tasks.Keys == {"first"} && end.rows.Keys == {"first"} && end.alive && end.queue == []
    ensures end.run.Some? && end.run.value.task == "first" && end.run.value.point.Persisting? && end.run.value.point.saved != []
    ensures Owns(end, end.run.value) && |end.posts| == 1 && end.posts[0].task == "first"
  {
    var payload := Payload("binding", false, ["leaf"]);
    var start := [Enqueue("first", payload), Start];
    var s := Empty.(tasks := map["first" := Task(Pending, 0, 1, payload, None)], alive := true);
    ExecTrail([Empty, Step(Empty, start[0]), s], start);
    var send := SendRun("first", Saved(["root"]));
    FreshTaskSends(s, "first", Saved(["root"]));
    ExecConcat(Empty, start, send);
    actions, end := start + send, Exec(s, send);
  }

  lemma ThirdSends(s: State) returns (actions: seq<Action>)
    requires Idle(s) && Fresh(s, "third") && Lineage(s, ["first", "second", "third"])
    requires |s.posts| == 1 && s.posts[0].task == "first"
    ensures var end := Exec(s, actions);
      Posted(end.posts, "first") && Posted(end.posts, "third") && Lineage(end, ["first", "second", "third"])
  {
    actions := SendRun("third", Saved(["root"]));
    FreshTaskSends(s, "third", Saved(["root"]));
    var end := Exec(s, actions);
    assert end.posts[0].task == "first" && end.posts[1].task == "third";
  }

  // The first task persists its roots and fails.
  lemma PersistThenFail(s: State) returns (end: State)
    requires s.tasks.Keys == {"first"} && s.rows.Keys == {"first"} && s.alive && s.queue == []
    requires s.run.Some? && s.run.value.task == "first" && s.run.value.point.Persisting? && s.run.value.point.saved != []
    requires Owns(s, s.run.value)
    ensures end == Step(Step(Step(s, Advance), Abort(Failed, true, true)), Retry("first", "second"))
    ensures Idle(end) && end.tasks.Keys == {"first", "second"} && end.rows.Keys == {"first"}
    ensures end.tasks["second"] == Task(Pending, 0, 1, s.tasks["first"].payload, Some("first"))
    ensures end.posts == s.posts
  {
    var failed := Step(Step(s, Advance), Abort(Failed, true, true));
    assert failed.tasks.Keys == {"first"};
    assert Retryable(failed, "first");
    end := Step(failed, Retry("first", "second"));
    assert end.tasks.Keys == {"first", "second"};
  }

  // Its retry fails before its row and is retried in turn.
  lemma FailBeforeRow(s: State) returns (end: State)
    requires Idle(s) && s.tasks.Keys == {"first", "second"} && s.rows.Keys == {"first"}
    requires s.tasks["second"] == Task(Pending, 0, 1, s.tasks["second"].payload, Some("first"))
    ensures end == Step(Step(Step(Step(s, ListPending(["second"])), Begin), Abort(Failed, true, true)), Retry("second", "third"))
    ensures Idle(end) && Fresh(end, "third") && end.posts == s.posts
    ensures Lineage(end, ["first", "second", "third"])
  {
    var listed := Step(s, ListPending(["second"]));
    assert listed.queue == [Queued("second", 0)];
    var begun := Step(listed, Begin);
    assert begun.queue == [];
    var failed := Step(begun, Abort(Failed, true, true));
    assert failed.tasks["second"].prior == Some("first");
    end := Step(failed, Retry("second", "third"));
    assert end.tasks["third"].prior == Some("second");
  }

  lemma FailThenRetryTwice(s: State) returns (actions: seq<Action>, end: State)
    requires s.tasks.Keys == {"first"} && s.rows.Keys == {"first"} && s.alive && s.queue == []
    requires s.run.Some? && s.run.value.task == "first" && s.run.value.point.Persisting? && s.run.value.point.saved != []
    requires Owns(s, s.run.value)
    ensures Exec(s, actions) == end && Idle(end) && Fresh(end, "third")
    ensures end.posts == s.posts
    ensures Lineage(end, ["first", "second", "third"])
  {
    var a := [Advance, Abort(Failed, true, true), Retry("first", "second")];
    var middle := PersistThenFail(s);
    ExecTrail([s, Step(s, a[0]), Step(Step(s, a[0]), a[1]), middle], a);
    var b := [ListPending(["second"]), Begin, Abort(Failed, true, true), Retry("second", "third")];
    end := FailBeforeRow(middle);
    ExecTrail([middle, Step(middle, b[0]), Step(Step(middle, b[0]), b[1]), Step(Step(Step(middle, b[0]), b[1]), b[2]), end], b);
    ExecConcat(s, a, b);
    actions := a + b;
  }

  lemma {:induction false} ExecConcat(s: State, a: seq<Action>, b: seq<Action>)
    ensures Exec(s, a + b) == Exec(Exec(s, a), b)
    decreases |a|
  {
    if a == [] {
      assert a + b == b;
    } else {
      assert (a + b)[1..] == a[1..] + b;
      ExecConcat(Step(s, a[0]), a[1..], b);
    }
  }
}
