// Verification of a STRM library: two workers classify every pointer, share counters, a cache of resolved
// directories and the list of at most twenty examples.
module StrmVerify {
  import opened Common
  import opened Text

  /******* The examples: the smallest twenty findings, in order *******/

  const LIMIT := 20

  predicate Sorted(xs: seq<string>) {
    forall i, j | 0 <= i < j < |xs| :: !Less(xs[j], xs[i])
  }

  function Insert(x: string, xs: seq<string>): seq<string> {
    if xs == [] || Less(x, xs[0]) then [x] + xs else [xs[0]] + Insert(x, xs[1..])
  }

  function Sort(xs: seq<string>): seq<string> {
    if xs == [] then [] else Insert(xs[|xs| - 1], Sort(xs[..|xs| - 1]))
  }

  function First(n: nat, xs: seq<string>): seq<string> {
    if |xs| <= n then xs else xs[..n]
  }

  // addConcurrentExample
  function AddExample(examples: seq<string>, x: string): seq<string> {
    First(LIMIT, Sort(examples + [x]))
  }

  lemma {:induction false} InsertAdds(x: string, xs: seq<string>)
    ensures multiset(Insert(x, xs)) == multiset(xs) + multiset{x}
  {
    if xs != [] && !Less(x, xs[0]) {
      InsertAdds(x, xs[1..]);
      assert xs == [xs[0]] + xs[1..];
    }
  }

  lemma {:induction false} SortPermutes(xs: seq<string>)
    ensures multiset(Sort(xs)) == multiset(xs)
  {
    if xs != [] {
      SortPermutes(xs[..|xs| - 1]);
      InsertAdds(xs[|xs| - 1], Sort(xs[..|xs| - 1]));
      assert xs == xs[..|xs| - 1] + [xs[|xs| - 1]];
    }
  }

  lemma {:induction false} InsertKeepsOrder(x: string, xs: seq<string>)
    requires Sorted(xs)
    ensures Sorted(Insert(x, xs))
  {
    if xs != [] {
      LessIsTotal(x, xs[0]);
      if Less(x, xs[0]) {
        forall j | 0 <= j < |xs|
          ensures !Less(xs[j], x)
        {
          LessIsTotal(xs[0], xs[0]);
          if Less(xs[j], x) {
            LessIsTransitive(xs[j], x, xs[0]);
            assert false;
          }
        }
      } else {
        var r := Insert(x, xs[1..]);
        InsertKeepsOrder(x, xs[1..]);
        forall j | 0 <= j < |r|
          ensures !Less(r[j], xs[0])
        {
          LessIsTotal(xs[0], xs[0]);
          InsertAdds(x, xs[1..]);
          assert r[j] in multiset(r);
          assert r[j] == x || r[j] in xs[1..];
        }
      }
    }
  }

  lemma {:induction false} SortSorts(xs: seq<string>)
    ensures Sorted(Sort(xs))
  {
    if xs != [] {
      SortSorts(xs[..|xs| - 1]);
      InsertKeepsOrder(xs[|xs| - 1], Sort(xs[..|xs| - 1]));
    }
  }

  // A sorted list is determined by its elements.
  lemma {:induction false} SortedIsUnique(a: seq<string>, b: seq<string>)
    requires Sorted(a) && Sorted(b) && multiset(a) == multiset(b)
    ensures a == b
    decreases |a|
  {
    if a == [] {
      assert |multiset(b)| == 0;
    } else {
      assert a[0] in multiset(b);
      SameLeast(a, b);
      Tail(a);
      Tail(b);
      SortedIsUnique(a[1..], b[1..]);
      assert a == [a[0]] + a[1..] && b == [b[0]] + b[1..];
    }
  }

  lemma Tail(a: seq<string>)
    requires Sorted(a) && a != []
    ensures Sorted(a[1..]) && multiset(a[1..]) == multiset(a) - multiset{a[0]}
  {
    assert a == [a[0]] + a[1..];
  }

  lemma SameLeast(a: seq<string>, b: seq<string>)
    requires Sorted(a) && Sorted(b) && multiset(a) == multiset(b) && a != [] && b != []
    ensures a[0] == b[0]
  {
    assert a[0] in multiset(b) && b[0] in multiset(a);
    var i :| 0 <= i < |b| && b[i] == a[0];
    var j :| 0 <= j < |a| && a[j] == b[0];
    LessIsTotal(a[0], b[0]);
  }

  lemma {:induction false} InsertIntoFirst(n: nat, x: string, xs: seq<string>)
    ensures First(n, Insert(x, First(n, xs))) == First(n, Insert(x, xs))
  {
    if xs != [] && n > 0 {
      var kept := First(n, xs);
      assert kept[0] == xs[0] && kept[1..] == First(n - 1, xs[1..]);
      if Less(x, xs[0]) {
        assert First(n, [x] + kept) == First(n, [x] + xs);
      } else {
        InsertIntoFirst(n - 1, x, xs[1..]);
        FirstOfCons(n, xs[0], Insert(x, xs[1..]));
        FirstOfCons(n, xs[0], Insert(x, kept[1..]));
      }
    }
  }

  lemma FirstOfCons(n: nat, x: string, xs: seq<string>)
    requires n > 0
    ensures First(n, [x] + xs) == [x] + First(n - 1, xs)
  {
  }

  // Adding one more finding to the smallest twenty of some gives the smallest twenty of all.
  lemma AddToSmallest(xs: seq<string>, x: string)
    ensures AddExample(First(LIMIT, Sort(xs)), x) == First(LIMIT, Sort(xs + [x]))
  {
    var kept := First(LIMIT, Sort(xs));
    SortSorts(xs);
    SortSorts(kept);
    SortPermutes(kept);
    SortedIsUnique(Sort(kept), kept);
    assert (kept + [x])[..|kept|] == kept && (xs + [x])[..|xs|] == xs;
    InsertIntoFirst(LIMIT, x, Sort(xs));
  }

  lemma SameFindingsSameExamples(xs: seq<string>, ys: seq<string>)
    requires multiset(xs) == multiset(ys)
    ensures Sort(xs) == Sort(ys)
  {
    SortSorts(xs);
    SortSorts(ys);
    SortPermutes(xs);
    SortPermutes(ys);
    SortedIsUnique(Sort(xs), Sort(ys));
  }

  /******* One pointer *******/

  // Absolute paths, by component.
  type Path = seq<string>

  datatype Resolution = Real(path: Path) | Absent | Fails

  datatype Leaf = NoEntry | Plain | Link | Unreadable

  // The file system as one verification sees it: resolving a path, and looking at one entry of a real directory.
  datatype Disk = Disk(eval: Path -> Resolution, lstat: Path -> Leaf)

  // `Broken` is an error that ends the verification.
  datatype Verdict = Valid | Missing | Invalid | Broken

  type Cache = map<Path, Resolution>

  function Parent(root: Path, relative: Path): Path
    requires relative != []
  {
    root + relative[..|relative| - 1]
  }

  function Directory(disk: Disk, cache: Cache, parent: Path): Resolution {
    if parent in cache then cache[parent] else disk.eval(parent)
  }

  function ResolvedVerdict(root: Path, r: Resolution): Verdict {
    match r
    case Absent => Missing
    case Fails => Broken
    case Real(path) => if root <= path then Valid else Invalid
  }

  // inspectSTRMTarget
  function Inspect(disk: Disk, root: Path, relative: Path, cache: Cache): Verdict
    requires relative != []
  {
    match Directory(disk, cache, Parent(root, relative))
    case Absent => Missing
    case Fails => Broken
    case Real(d) =>
      if !(root <= d) then Invalid
      else
        var leaf := d + [relative[|relative| - 1]];
        match disk.lstat(leaf)
        case NoEntry => Missing
        case Unreadable => Broken
        case Plain => Valid
        case Link => ResolvedVerdict(root, disk.eval(leaf))
  }

  // What was resolved once is what resolving again would give.
  predicate Faithful(disk: Disk, cache: Cache) {
    forall p | p in cache :: cache[p] == disk.eval(p)
  }

  lemma CachedIsFresh(disk: Disk, root: Path, relative: Path, cache: Cache)
    requires relative != [] && Faithful(disk, cache)
    ensures Inspect(disk, root, relative, cache) == Inspect(disk, root, relative, map[])
  {
  }

  // A path is resolved entry by entry.
  ghost predicate Coherent(disk: Disk) {
    forall p: Path, name: string {:trigger disk.eval(p + [name])} ::
      disk.eval(p + [name]) ==
      match disk.eval(p)
        case Absent => Absent
        case Fails => Fails
        case Real(d) =>
          match disk.lstat(d + [name])
          case NoEntry => Absent
          case Unreadable => Fails
          case Plain => Real(d + [name])
          case Link => disk.eval(d + [name])
  }

  // The verdict is that of resolving the whole path, except when the target's directory is really outside the
  // media root: then it is `Invalid` whatever the target itself is.
  lemma VerdictIsFullIff(disk: Disk, root: Path, relative: Path)
    requires Coherent(disk) && relative != []
    ensures var full := ResolvedVerdict(root, disk.eval(root + relative));
      Inspect(disk, root, relative, map[]) == full <==>
      (disk.eval(Parent(root, relative)).Real? && !(root <= disk.eval(Parent(root, relative)).path) ==> full == Invalid)
  {
    assert root + relative == Parent(root, relative) + [relative[|relative| - 1]];
    var parent := disk.eval(Parent(root, relative));
    if parent.Real? && root <= parent.path {
      assert root <= parent.path + [relative[|relative| - 1]];
    }
  }

  // A disk on which the media directory /m holds only a link, /m/d, that leads outside it, to the empty /x.
  function LinkedLeaf(p: Path): Leaf {
    if p == ["m"] || p == ["x"] then Plain else if p == ["m", "d"] then Link else NoEntry
  }

  function LinkedEval(p: Path): Resolution {
    if p == [] then Real([])
    else
      match LinkedEval(p[..|p| - 1])
      case Absent => Absent
      case Fails => Fails
      case Real(d) =>
        match LinkedLeaf(d + [p[|p| - 1]])
        case NoEntry => Absent
        case Unreadable => Fails
        case Plain => Real(d + [p[|p| - 1]])
        case Link => Real(["x"])
  }

  // There a missing target is reported as one outside the media root.
  lemma VerdictCanDiffer() returns (disk: Disk, root: Path, relative: Path)
    ensures Coherent(disk) && relative != []
    ensures Inspect(disk, root, relative, map[]) == Invalid && ResolvedVerdict(root, disk.eval(root + relative)) == Missing
  {
    disk, root, relative := Disk(LinkedEval, LinkedLeaf), ["m"], ["d", "f"];
    var link := ["m", "d"];
    assert LinkedEval(["m"]) == Real(["m"]);
    assert link[..1] == ["m"] && ["m"] + ["d"] == link;
    assert LinkedEval(link) == Real(["x"]);
    forall p: Path, name: string
      ensures disk.eval(p + [name]) ==
        match disk.eval(p)
          case Absent => Absent
          case Fails => Fails
          case Real(d) =>
            match disk.lstat(d + [name])
            case NoEntry => Absent
            case Unreadable => Fails
            case Plain => Real(d + [name])
            case Link => disk.eval(d + [name])
    {
      assert (p + [name])[..|p|] == p;
    }
    assert root + relative == link + ["f"] && root + relative[..1] == link;
  }

  datatype Target = Linked | Foreign | Escaping | Names(relative: Path, text: string)

  // A STRM file. `Linked` is one that is itself a symbolic link, `Foreign` one whose text has another prefix, and
  // `Escaping` one whose text is no path below the media root.
  datatype Pointer = Pointer(path: string, target: Target)

  // What looking at one pointer gives: its verdict, and what to say about it.
  datatype Outcome = Outcome(verdict: Verdict, finding: Option<string>)

  function Look(disk: Disk, root: Path, p: Pointer, cache: Cache): Outcome {
    match p.target
    case Linked => Outcome(Invalid, Some(p.path + ": symbolic link is not allowed"))
    case Foreign => Outcome(Invalid, Some(p.path + ": invalid target"))
    case Escaping => Outcome(Invalid, Some(p.path + ": target escapes media_root"))
    case Names(relative, text) =>
      if relative == [] then Outcome(Invalid, Some(p.path + ": target escapes media_root"))
      else
        var v := Inspect(disk, root, relative, cache);
        Outcome(v, match v
          case Missing => Some(p.path + ": missing " + text)
          case Invalid => Some(p.path + ": target resolves outside media_root")
          case _ => None)
  }

  /******* The two workers *******/

  type Group = seq<Pointer>

  // Before a pointer is looked at, or between its count and the example it gives.
  datatype Activity = Idle | Looking(group: nat, done: nat) | Counted(group: nat, done: nat, finding: string)

  datatype Shared = Shared(
    next: nat, valid: nat, missing: nat, invalid: nat,
    // The findings in the order they were added, and the examples kept of them.
    added: seq<string>, examples: seq<string>,
    cache: Cache, cancelled: bool)

  datatype Engine = Engine(shared: Shared, first: Activity, second: Activity)

  datatype Turn = Turn(first: bool, fails: bool)

  // The library as a verification finds it.
  datatype Library = Library(disk: Disk, root: Path, groups: seq<Group>)

  // How many pointers each group has.
  function Sizes(lib: Library): (sizes: seq<nat>)
    ensures |sizes| == |lib.groups| && forall g | 0 <= g < |sizes| :: sizes[g] == |lib.groups[g]|
  {
    seq(|lib.groups|, g requires 0 <= g < |lib.groups| => |lib.groups[g]|)
  }

  predicate Within(sizes: seq<nat>, a: Activity) {
    a.Idle? || (a.group < |sizes| && a.done < sizes[a.group])
  }

  function Advance(sizes: seq<nat>, g: nat, done: nat): Activity
    requires g < |sizes|
  {
    if done + 1 < sizes[g] then Looking(g, done + 1) else Idle
  }

  function Count(s: Shared, v: Verdict): Shared {
    match v
    case Valid => s.(valid := s.valid + 1)
    case Missing => s.(missing := s.missing + 1)
    case Invalid => s.(invalid := s.invalid + 1)
    case Broken => s
  }

  function Cached(lib: Library, p: Pointer, cache: Cache): Cache {
    if p.target.Names? && p.target.relative != [] then
      var parent := Parent(lib.root, p.target.relative);
      if parent in cache then cache else cache[parent := lib.disk.eval(parent)]
    else cache
  }

  // Counts a pointer; its finding, if any, is added in a step of its own.
  function Record(sizes: seq<nat>, s: Shared, g: nat, d: nat, o: Outcome): (Shared, Activity)
    requires g < |sizes|
  {
    (Count(s, o.verdict), if o.finding.Some? then Counted(g, d, o.finding.value) else Advance(sizes, g, d))
  }

  function Add(sizes: seq<nat>, s: Shared, g: nat, d: nat, finding: string): (Shared, Activity)
    requires g < |sizes|
  {
    (s.(added := s.added + [finding], examples := AddExample(s.examples, finding)), Advance(sizes, g, d))
  }

  function Take(sizes: seq<nat>, s: Shared): (Shared, Activity) {
    if s.next < |sizes| && sizes[s.next] > 0 then (s.(next := s.next + 1), Looking(s.next, 0)) else (s, Idle)
  }

  function Act(lib: Library, s: Shared, a: Activity, fails: bool): (Shared, Activity)
    requires Within(Sizes(lib), a)
  {
    match a
    case Idle => Take(Sizes(lib), s)
    case Looking(g, d) =>
      var p := lib.groups[g][d];
      var o := Look(lib.disk, lib.root, p, s.cache);
      if fails || o.verdict.Broken? then (s.(cancelled := true), Idle)
      else Record(Sizes(lib), s.(cache := Cached(lib, p, s.cache)), g, d, o)
    case Counted(g, d, finding) => Add(Sizes(lib), s, g, d, finding)
  }

  function Step(lib: Library, e: Engine, t: Turn): Engine
    requires Within(Sizes(lib), e.first) && Within(Sizes(lib), e.second)
  {
    if t.first then
      var (s, a) := Act(lib, e.shared, e.first, t.fails);
      Engine(s, a, e.second)
    else
      var (s, a) := Act(lib, e.shared, e.second, t.fails);
      Engine(s, e.first, a)
  }

  /******* What every interleaving keeps *******/

  // What looking at a pointer gives when every path is resolved afresh.
  function FreshLook(lib: Library, p: Pointer): Outcome {
    Look(lib.disk, lib.root, p, map[])
  }

  type Outcomes = seq<seq<Outcome>>

  predicate AreFresh(lib: Library, os: Outcomes) {
    Fits(os, Sizes(lib)) &&
    forall g, d | 0 <= g < |os| && 0 <= d < |os[g]| :: os[g][d] == FreshLook(lib, lib.groups[g][d])
  }

  predicate Fits(os: Outcomes, sizes: seq<nat>) {
    |os| == |sizes| && forall g | 0 <= g < |os| :: |os[g]| == sizes[g]
  }

  // How many outcomes, from one on, have a verdict.
  function TallyFrom(os: seq<Outcome>, d: nat, v: Verdict): nat
    decreases |os| - d
  {
    if d >= |os| then 0 else TallyFrom(os, d + 1, v) + if os[d].verdict == v then 1 else 0
  }

  function Tally(os: Outcomes, n: nat, v: Verdict): nat
    requires n <= |os|
  {
    if n == 0 then 0 else Tally(os, n - 1, v) + TallyFrom(os[n - 1], 0, v)
  }

  function Findings(os: seq<Outcome>, d: nat): seq<string>
    decreases |os| - d
  {
    if d >= |os| then [] else (if os[d].finding.Some? then [os[d].finding.value] else []) + Findings(os, d + 1)
  }

  // All findings of the first n groups, in walk order.
  function AllFindings(os: Outcomes, n: nat): seq<string>
    requires n <= |os|
  {
    if n == 0 then [] else AllFindings(os, n - 1) + Findings(os[n - 1], 0)
  }

  // What a worker still owes to a count, and to the examples.
  function Left(os: Outcomes, a: Activity, v: Verdict): nat
    requires !a.Idle? ==> a.group < |os|
  {
    match a
    case Idle => 0
    case Looking(g, d) => TallyFrom(os[g], d, v)
    case Counted(g, d, _) => TallyFrom(os[g], d + 1, v)
  }

  function Pending(os: Outcomes, a: Activity): seq<string>
    requires !a.Idle? ==> a.group < |os|
  {
    match a
    case Idle => []
    case Looking(g, d) => Findings(os[g], d)
    case Counted(g, d, finding) => [finding] + Findings(os[g], d + 1)
  }

  // What one worker's step keeps, taken with what the worker still owes.
  predicate SameAccount(os: Outcomes, s: Shared, a: Activity, s': Shared, a': Activity)
    requires (!a.Idle? ==> a.group < |os|) && (!a'.Idle? ==> a'.group < |os|)
  {
    SameCounts(os, s, a, s', a') && SameFindings(os, s, a, s', a')
  }

  predicate SameCounts(os: Outcomes, s: Shared, a: Activity, s': Shared, a': Activity)
    requires (!a.Idle? ==> a.group < |os|) && (!a'.Idle? ==> a'.group < |os|)
  {
    && s'.valid + Left(os, a', Valid) == s.valid + Left(os, a, Valid)
    && s'.missing + Left(os, a', Missing) == s.missing + Left(os, a, Missing)
    && s'.invalid + Left(os, a', Invalid) == s.invalid + Left(os, a, Invalid)
    && Left(os, a', Broken) == Left(os, a, Broken)
  }

  predicate SameFindings(os: Outcomes, s: Shared, a: Activity, s': Shared, a': Activity)
    requires (!a.Idle? ==> a.group < |os|) && (!a'.Idle? ==> a'.group < |os|)
  {
    multiset(s'.added) + multiset(Pending(os, a')) == multiset(s.added) + multiset(Pending(os, a))
  }

  lemma AdvanceOwes(os: Outcomes, sizes: seq<nat>, g: nat, d: nat)
    requires Fits(os, sizes) && g < |os| && d < |os[g]|
    ensures var a := Advance(sizes, g, d);
      && Within(sizes, a) && Pending(os, a) == Findings(os[g], d + 1)
      && Left(os, a, Valid) == TallyFrom(os[g], d + 1, Valid)
      && Left(os, a, Missing) == TallyFrom(os[g], d + 1, Missing)
      && Left(os, a, Invalid) == TallyFrom(os[g], d + 1, Invalid)
      && Left(os, a, Broken) == TallyFrom(os[g], d + 1, Broken)
  {
  }

  lemma RecordAccounts(os: Outcomes, sizes: seq<nat>, s: Shared, g: nat, d: nat)
    requires Fits(os, sizes) && g < |os| && d < |os[g]| && !os[g][d].verdict.Broken?
    ensures var (s', a') := Record(sizes, s, g, d, os[g][d]); Within(sizes, a') && SameAccount(os, s, Looking(g, d), s', a')
  {
    RecordCounts(os, sizes, s, g, d);
    RecordFindings(os, sizes, s, g, d);
  }

  lemma RecordCounts(os: Outcomes, sizes: seq<nat>, s: Shared, g: nat, d: nat)
    requires Fits(os, sizes) && g < |os| && d < |os[g]| && !os[g][d].verdict.Broken?
    ensures var (s', a') := Record(sizes, s, g, d, os[g][d]); SameCounts(os, s, Looking(g, d), s', a')
  {
    AdvanceOwes(os, sizes, g, d);
  }

  lemma RecordFindings(os: Outcomes, sizes: seq<nat>, s: Shared, g: nat, d: nat)
    requires Fits(os, sizes) && g < |os| && d < |os[g]|
    ensures var (s', a') := Record(sizes, s, g, d, os[g][d]); SameFindings(os, s, Looking(g, d), s', a')
  {
    AdvanceOwes(os, sizes, g, d);
    var (s', a') := Record(sizes, s, g, d, os[g][d]);
    assert s'.added == s.added && Pending(os, a') == Findings(os[g], d);
  }

  lemma AddAccounts(os: Outcomes, sizes: seq<nat>, s: Shared, g: nat, d: nat, finding: string)
    requires Fits(os, sizes) && g < |os| && d < |os[g]|
    ensures var (s', a') := Add(sizes, s, g, d, finding); Within(sizes, a') && SameAccount(os, s, Counted(g, d, finding), s', a')
  {
    AdvanceOwes(os, sizes, g, d);
    OneMoved(s.added, finding, Findings(os[g], d + 1));
  }

  lemma OneMoved(xs: seq<string>, x: string, rest: seq<string>)
    ensures multiset(xs + [x]) + multiset(rest) == multiset(xs) + multiset([x] + rest)
  {
  }

  predicate Shape(lib: Library, os: Outcomes, e: Engine) {
    && AreFresh(lib, os)
    && e.shared.next <= |os| && Within(Sizes(lib), e.first) && Within(Sizes(lib), e.second)
    && Faithful(lib.disk, e.shared.cache) && e.shared.examples == First(LIMIT, Sort(e.shared.added))
  }

  // Every pointer of the groups taken so far is counted, or owed by the worker that has it; likewise every finding.
  predicate Accounted(os: Outcomes, e: Engine)
    requires e.shared.next <= |os| && (!e.first.Idle? ==> e.first.group < |os|) && (!e.second.Idle? ==> e.second.group < |os|)
  {
    var s := e.shared;
    && s.valid + Left(os, e.first, Valid) + Left(os, e.second, Valid) == Tally(os, s.next, Valid)
    && s.missing + Left(os, e.first, Missing) + Left(os, e.second, Missing) == Tally(os, s.next, Missing)
    && s.invalid + Left(os, e.first, Invalid) + Left(os, e.second, Invalid) == Tally(os, s.next, Invalid)
    && Left(os, e.first, Broken) + Left(os, e.second, Broken) == Tally(os, s.next, Broken)
    && multiset(s.added) + multiset(Pending(os, e.first)) + multiset(Pending(os, e.second)) == multiset(AllFindings(os, s.next))
  }

  predicate EngineInv(lib: Library, os: Outcomes, e: Engine) {
    Shape(lib, os, e) && (!e.shared.cancelled ==> Accounted(os, e))
  }

  lemma AccountMoves(os: Outcomes, e: Engine, s: Shared, a: Activity)
    requires e.shared.next <= |os| && (!e.first.Idle? ==> e.first.group < |os|) && (!e.second.Idle? ==> e.second.group < |os|)
    requires Accounted(os, e) && s.next == e.shared.next && (!a.Idle? ==> a.group < |os|) && SameAccount(os, e.shared, e.first, s, a)
    ensures Accounted(os, Engine(s, a, e.second))
  {
  }

  lemma TakeAccounts(os: Outcomes, e: Engine)
    requires e.shared.next < |os| && e.first.Idle? && (!e.second.Idle? ==> e.second.group < |os|) && Accounted(os, e) && os[e.shared.next] != []
    ensures Accounted(os, Engine(e.shared.(next := e.shared.next + 1), Looking(e.shared.next, 0), e.second))
  {
  }

  lemma TakeKeeps(lib: Library, os: Outcomes, e: Engine, fails: bool)
    requires EngineInv(lib, os, e) && e.first.Idle?
    ensures EngineInv(lib, os, Step(lib, e, Turn(true, fails)))
  {
    var (s', a') := Take(Sizes(lib), e.shared);
    assert Step(lib, e, Turn(true, fails)) == Engine(s', a', e.second);
    if s' != e.shared {
      assert Within(Sizes(lib), a') && s'.next <= |os|;
      if !e.shared.cancelled {
        TakeAccounts(os, e);
      }
    }
  }

  lemma LookKeeps(lib: Library, os: Outcomes, e: Engine, fails: bool)
    requires EngineInv(lib, os, e) && e.first.Looking?
    ensures EngineInv(lib, os, Step(lib, e, Turn(true, fails)))
  {
    var g, d, cache := e.first.group, e.first.done, e.shared.cache;
    LookIsFresh(lib, lib.groups[g][d], cache);
    var o := os[g][d];
    if !fails && !o.verdict.Broken? {
      var s := e.shared.(cache := Cached(lib, lib.groups[g][d], cache));
      RecordAccounts(os, Sizes(lib), s, g, d);
      var (s', a') := Record(Sizes(lib), s, g, d, o);
      assert Step(lib, e, Turn(true, fails)) == Engine(s', a', e.second);
      if !e.shared.cancelled {
        AccountMoves(os, e, s', a');
      }
    }
  }

  lemma LookIsFresh(lib: Library, p: Pointer, cache: Cache)
    requires Faithful(lib.disk, cache)
    ensures Look(lib.disk, lib.root, p, cache) == FreshLook(lib, p) && Faithful(lib.disk, Cached(lib, p, cache))
  {
    if p.target.Names? && p.target.relative != [] {
      CachedIsFresh(lib.disk, lib.root, p.target.relative, cache);
    }
  }

  lemma AddKeeps(lib: Library, os: Outcomes, e: Engine, fails: bool)
    requires EngineInv(lib, os, e) && e.first.Counted?
    ensures EngineInv(lib, os, Step(lib, e, Turn(true, fails)))
  {
    AddToSmallest(e.shared.added, e.first.finding);
    AddAccounts(os, Sizes(lib), e.shared, e.first.group, e.first.done, e.first.finding);
    var (s', a') := Add(Sizes(lib), e.shared, e.first.group, e.first.done, e.first.finding);
    assert Step(lib, e, Turn(true, fails)) == Engine(s', a', e.second);
    if !e.shared.cancelled {
      AccountMoves(os, e, s', a');
    }
  }

  function Swapped(e: Engine): Engine {
    Engine(e.shared, e.second, e.first)
  }

  lemma SwappedKeeps(lib: Library, os: Outcomes, e: Engine)
    requires EngineInv(lib, os, e)
    ensures EngineInv(lib, os, Swapped(e))
  {
  }

  lemma FirstKeeps(lib: Library, os: Outcomes, e: Engine, fails: bool)
    requires EngineInv(lib, os, e)
    ensures EngineInv(lib, os, Step(lib, e, Turn(true, fails)))
  {
    match e.first
    case Idle => TakeKeeps(lib, os, e, fails);
    case Looking(_, _) => LookKeeps(lib, os, e, fails);
    case Counted(_, _, _) => AddKeeps(lib, os, e, fails);
  }

  lemma StepKeeps(lib: Library, os: Outcomes, e: Engine, t: Turn)
    requires EngineInv(lib, os, e)
    ensures EngineInv(lib, os, Step(lib, e, t))
  {
    if t.first {
      FirstKeeps(lib, os, e, t.fails);
    } else {
      SwappedKeeps(lib, os, e);
      FirstKeeps(lib, os, Swapped(e), t.fails);
      assert Step(lib, e, t) == Swapped(Step(lib, Swapped(e), Turn(true, t.fails)));
      SwappedKeeps(lib, os, Step(lib, Swapped(e), Turn(true, t.fails)));
    }
  }

  /******* A finished verification *******/

  function Begin(): Engine {
    Engine(Shared(0, 0, 0, 0, [], [], map[], false), Idle, Idle)
  }

  predicate IsRun(lib: Library, states: seq<Engine>, turns: seq<Turn>) {
    && |states| == |turns| + 1 && states[0] == Begin()
    && forall i | 0 <= i < |turns| ::
         Within(Sizes(lib), states[i].first) && Within(Sizes(lib), states[i].second) && states[i + 1] == Step(lib, states[i], turns[i])
  }

  predicate Finished(lib: Library, e: Engine) {
    e.first.Idle? && e.second.Idle? && e.shared.next == |lib.groups| && !e.shared.cancelled
  }

  lemma {:induction false} RunKeeps(lib: Library, os: Outcomes, states: seq<Engine>, turns: seq<Turn>, n: nat)
    requires AreFresh(lib, os) && IsRun(lib, states, turns) && n <= |turns|
    ensures EngineInv(lib, os, states[n])
  {
    if n > 0 {
      RunKeeps(lib, os, states, turns, n - 1);
      StepKeeps(lib, os, states[n - 1], turns[n - 1]);
    }
  }

  // However the two workers interleave, a verification that finishes counts every pointer once under the verdict a
  // fresh look at it gives, and its examples are the smallest twenty findings in order.
  lemma VerifyResult(lib: Library, os: Outcomes, states: seq<Engine>, turns: seq<Turn>)
    requires AreFresh(lib, os) && IsRun(lib, states, turns) && Finished(lib, states[|turns|])
    ensures var end := states[|turns|].shared;
      && end.valid == Tally(os, |os|, Valid) && end.missing == Tally(os, |os|, Missing) && end.invalid == Tally(os, |os|, Invalid)
      && end.valid + end.missing + end.invalid == Size(os, |os|)
      && end.examples == First(LIMIT, Sort(AllFindings(os, |os|)))
  {
    RunKeeps(lib, os, states, turns, |turns|);
    Tallies(os, |os|);
    SameFindingsSameExamples(states[|turns|].shared.added, AllFindings(os, |os|));
  }

  function Size(os: Outcomes, n: nat): nat
    requires n <= |os|
  {
    if n == 0 then 0 else Size(os, n - 1) + |os[n - 1]|
  }

  lemma {:induction false} GroupTallies(os: seq<Outcome>, d: nat)
    requires d <= |os|
    ensures TallyFrom(os, d, Valid) + TallyFrom(os, d, Missing) + TallyFrom(os, d, Invalid) + TallyFrom(os, d, Broken) == |os| - d
    decreases |os| - d
  {
    if d < |os| {
      GroupTallies(os, d + 1);
    }
  }

  lemma {:induction false} Tallies(os: Outcomes, n: nat)
    requires n <= |os|
    ensures Tally(os, n, Valid) + Tally(os, n, Missing) + Tally(os, n, Invalid) + Tally(os, n, Broken) == Size(os, n)
  {
    if n > 0 {
      Tallies(os, n - 1);
      GroupTallies(os[n - 1], 0);
    }
  }
}