// The normalisation planner: which of several files with the same bytes is kept, and where an external
// subtitle goes. The planner only writes a plan; applying it is NormalizeApply's subject.
module NormalizePlan {
  import opened Common
  import opened Text

  /******* Exact duplicates *******/

  // A file with one identity and destination. `mediaKey` says which film or episode it is; `misplaced`
  // that its top folder is not its destination.
  datatype Candidate = Candidate(objectId: Id, sha1: string, size: nat, mediaKey: string, misplaced: bool, path: string)

  datatype Verdict = Canonical | ExactDuplicate | ConflictingIdentities

  // The order the file to keep is the least of.
  predicate Preferred(c: Candidate, d: Candidate) {
    if c.misplaced != d.misplaced then d.misplaced
    else if c.path != d.path then Less(c.path, d.path)
    else Less(c.objectId, d.objectId)
  }

  predicate SameBytes(c: Candidate, d: Candidate) {
    c.sha1 != "" && c.sha1 == d.sha1 && c.size == d.size
  }

  predicate DistinctObjects(resolved: seq<Candidate>) {
    forall i, j | 0 <= i < j < |resolved| :: resolved[i].objectId != resolved[j].objectId
  }

  predicate Conflicts(resolved: seq<Candidate>, i: nat)
    requires i < |resolved|
  {
    exists j | 0 <= j < |resolved| :: SameBytes(resolved[i], resolved[j]) && resolved[j].mediaKey != resolved[i].mediaKey
  }

  // Some other file with the same bytes is preferred.
  predicate Superseded(resolved: seq<Candidate>, i: nat)
    requires i < |resolved|
  {
    exists j | 0 <= j < |resolved| :: SameBytes(resolved[i], resolved[j]) && Preferred(resolved[j], resolved[i])
  }

  ghost function VerdictOn(resolved: seq<Candidate>, i: nat): Verdict
    requires i < |resolved|
  {
    if Conflicts(resolved, i) then ConflictingIdentities
    else if Superseded(resolved, i) then ExactDuplicate
    else Canonical
  }

  lemma PreferredIsTotal(c: Candidate, d: Candidate)
    requires c.objectId != d.objectId
    ensures Preferred(c, d) != Preferred(d, c)
  {
    LessIsTotal(c.path, d.path);
    LessIsTotal(c.objectId, d.objectId);
  }

  lemma PreferredIsTransitive(c: Candidate, d: Candidate, e: Candidate)
    requires Preferred(c, d) && Preferred(d, e)
    ensures Preferred(c, e)
  {
    if c.path != d.path && d.path != e.path && Less(c.path, d.path) && Less(d.path, e.path) {
      LessIsTransitive(c.path, d.path, e.path);
      LessIsTotal(c.path, e.path);
    }
    if Less(c.objectId, d.objectId) && Less(d.objectId, e.objectId) {
      LessIsTransitive(c.objectId, d.objectId, e.objectId);
    }
  }

  predicate Twins(resolved: seq<Candidate>, i: nat, group: seq<nat>)
    requires i < |resolved|
  {
    && (forall j | j in group :: j < |resolved| && SameBytes(resolved[i], resolved[j]))
    && forall j: nat | j < |resolved| && SameBytes(resolved[i], resolved[j]) :: j in group
  }

  // Groups of equal bytes of at least two files, in the order their first files come.
  method GroupByBytes(resolved: seq<Candidate>) returns (groups: map<(string, nat), seq<nat>>)
    ensures forall k | k in groups :: forall j | j in groups[k] :: j < |resolved|
    ensures forall k, j: nat | k in groups && j < |resolved| ::
              j in groups[k] <==> resolved[j].sha1 != "" && (resolved[j].sha1, resolved[j].size) == k
    ensures forall j | 0 <= j < |resolved| && resolved[j].sha1 != "" :: (resolved[j].sha1, resolved[j].size) in groups
  {
    groups := map[];
    for i := 0 to |resolved|
      invariant forall k | k in groups :: forall j | j in groups[k] :: j < i
      invariant forall k, j: nat | k in groups && j < i ::
                  j in groups[k] <==> resolved[j].sha1 != "" && (resolved[j].sha1, resolved[j].size) == k
      invariant forall j | 0 <= j < i && resolved[j].sha1 != "" :: (resolved[j].sha1, resolved[j].size) in groups
    {
      if resolved[i].sha1 != "" {
        var key := (resolved[i].sha1, resolved[i].size);
        groups := groups[key := (if key in groups then groups[key] else []) + [i]];
      }
    }
  }

  method Keeper(resolved: seq<Candidate>, group: seq<nat>) returns (keeper: nat)
    requires group != [] && (forall j | j in group :: j < |resolved|) && DistinctObjects(resolved)
    ensures keeper in group
    ensures forall j | j in group && j != keeper :: Preferred(resolved[keeper], resolved[j])
  {
    assert forall k | 0 <= k < |group| :: group[k] in group;
    keeper := group[0];
    for k := 1 to |group|
      invariant keeper in group
      invariant forall l | 0 <= l < k && group[l] != keeper :: Preferred(resolved[keeper], resolved[group[l]])
    {
      if group[k] != keeper {
        PreferredIsTotal(resolved[keeper], resolved[group[k]]);
        if Preferred(resolved[group[k]], resolved[keeper]) {
          forall l | 0 <= l < k && group[l] != group[k]
            ensures Preferred(resolved[group[k]], resolved[group[l]])
          {
            if group[l] != keeper {
              PreferredIsTransitive(resolved[group[k]], resolved[keeper], resolved[group[l]]);
            }
          }
          keeper := group[k];
        }
      }
    }
  }

  // Which files are planned under their own name, which are staged for recycling, and which are
  // left to the operator.
  method ResolveDuplicates(resolved: seq<Candidate>) returns (verdicts: seq<Verdict>)
    requires DistinctObjects(resolved)
    ensures |verdicts| == |resolved| && forall i | 0 <= i < |resolved| :: verdicts[i] == VerdictOn(resolved, i)
  {
    var groups := GroupByBytes(resolved);
    verdicts := seq(|resolved|, i => Canonical);
    var keys := groups.Keys;
    while keys != {}
      invariant keys <= groups.Keys && |verdicts| == |resolved|
      invariant forall i | 0 <= i < |resolved| && resolved[i].sha1 != "" && (resolved[i].sha1, resolved[i].size) !in keys ::
                  verdicts[i] == VerdictOn(resolved, i)
      invariant forall i | 0 <= i < |resolved| && (resolved[i].sha1 == "" || (resolved[i].sha1, resolved[i].size) in keys) ::
                  verdicts[i] == Canonical
      decreases |keys|
    {
      var key :| key in keys;
      keys := keys - {key};
      verdicts := ResolveGroup(resolved, groups[key], verdicts);
    }
  }

  // The verdicts on the files of one group.
  method ResolveGroup(resolved: seq<Candidate>, group: seq<nat>, before: seq<Verdict>) returns (verdicts: seq<Verdict>)
    requires DistinctObjects(resolved) && |before| == |resolved|
    requires forall i | i in group :: i < |resolved| && before[i].Canonical? && Twins(resolved, i, group)
    ensures |verdicts| == |resolved|
    ensures forall i: nat | i < |resolved| ::
              verdicts[i] == if i in group then VerdictOn(resolved, i) else before[i]
  {
    var verdict, except := ResolveOne(resolved, group);
    verdicts := Mark(resolved, group, before, except, verdict);
  }

  // All files of a group but one get one verdict, and that one is kept.
  method ResolveOne(resolved: seq<Candidate>, group: seq<nat>) returns (verdict: Verdict, except: nat)
    requires DistinctObjects(resolved) && IsGroup(resolved, group)
    ensures forall i: nat | i in group :: i < |resolved| && VerdictOn(resolved, i) == if i == except then Canonical else verdict
  {
    assert forall k | 0 <= k < |group| :: group[k] in group;
    if |group| < 2 {
      AloneIsCanonical(resolved, group);
      return Canonical, 0;
    }
    var conflicting := exists k | 0 <= k < |group| :: resolved[group[k]].mediaKey != resolved[group[0]].mediaKey;
    if conflicting {
      AllConflict(resolved, group);
      return ConflictingIdentities, |resolved|;
    }
    except := Keeper(resolved, group);
    KeeperVerdicts(resolved, group, except);
    verdict := ExactDuplicate;
  }

  lemma KeeperVerdicts(resolved: seq<Candidate>, group: seq<nat>, keeper: nat)
    requires DistinctObjects(resolved) && IsGroup(resolved, group) && keeper in group
    requires forall k | 0 <= k < |group| :: group[k] < |resolved|
    requires forall k | 0 <= k < |group| :: resolved[group[k]].mediaKey == resolved[group[0]].mediaKey
    requires forall j | j in group && j != keeper :: j < |resolved| && Preferred(resolved[keeper], resolved[j])
    ensures forall i | i in group :: i < |resolved| && VerdictOn(resolved, i) == if i == keeper then Canonical else ExactDuplicate
  {
    NoneConflicts(resolved, group);
    forall i: nat | i in group
      ensures Superseded(resolved, i) <==> i != keeper
    {
      KeeperIsLeast(resolved, group, keeper, i);
    }
  }

  predicate IsGroup(resolved: seq<Candidate>, group: seq<nat>) {
    forall i | i in group :: i < |resolved| && Twins(resolved, i, group)
  }

  lemma AloneIsCanonical(resolved: seq<Candidate>, group: seq<nat>)
    requires DistinctObjects(resolved) && IsGroup(resolved, group) && |group| < 2
    ensures forall i | i in group :: VerdictOn(resolved, i) == Canonical
  {
    forall i: nat | i in group
      ensures VerdictOn(resolved, i) == Canonical
    {
      LessIsTotal(resolved[i].objectId, resolved[i].objectId);
      assert forall j: nat | j < |resolved| && SameBytes(resolved[i], resolved[j]) :: j == i;
    }
  }

  lemma AllConflict(resolved: seq<Candidate>, group: seq<nat>)
    requires IsGroup(resolved, group)
    requires forall k | 0 <= k < |group| :: group[k] < |resolved|
    requires exists k | 0 <= k < |group| :: resolved[group[k]].mediaKey != resolved[group[0]].mediaKey
    ensures forall i | i in group :: Conflicts(resolved, i)
  {
    var k :| 0 <= k < |group| && resolved[group[k]].mediaKey != resolved[group[0]].mediaKey;
    forall i: nat | i in group
      ensures Conflicts(resolved, i)
    {
      assert group[k] in group && group[0] in group;
      assert SameBytes(resolved[i], resolved[group[k]]) && SameBytes(resolved[i], resolved[group[0]]);
    }
  }

  lemma NoneConflicts(resolved: seq<Candidate>, group: seq<nat>)
    requires IsGroup(resolved, group)
    requires forall k | 0 <= k < |group| :: group[k] < |resolved|
    requires forall k | 0 <= k < |group| :: resolved[group[k]].mediaKey == resolved[group[0]].mediaKey
    ensures forall i | i in group :: !Conflicts(resolved, i)
  {
    forall i, j | i in group && 0 <= j < |resolved| && SameBytes(resolved[i], resolved[j])
      ensures resolved[i].mediaKey == resolved[j].mediaKey
    {
      assert j in group;
      var k :| 0 <= k < |group| && group[k] == i;
      var l :| 0 <= l < |group| && group[l] == j;
    }
  }

  method Mark(resolved: seq<Candidate>, group: seq<nat>, before: seq<Verdict>, except: nat, verdict: Verdict) returns (after: seq<Verdict>)
    requires |before| == |resolved| && forall i | i in group :: i < |resolved|
    ensures |after| == |resolved|
    ensures forall i: nat | i < |resolved| :: after[i] == if i in group && i != except then verdict else before[i]
  {
    after := before;
    for k := 0 to |group|
      invariant |after| == |resolved|
      invariant forall i: nat | i < |resolved| :: after[i] == if i in group[..k] && i != except then verdict else before[i]
    {
      assert group[..k + 1] == group[..k] + [group[k]];
      assert group[k] in group;
      if group[k] != except {
        after := after[group[k] := verdict];
      }
    }
    assert group[..|group|] == group;
  }

  lemma KeeperIsLeast(resolved: seq<Candidate>, group: seq<nat>, keeper: nat, i: nat)
    requires DistinctObjects(resolved) && i in group && keeper in group
    requires forall j | j in group :: j < |resolved| && Twins(resolved, j, group)
    requires forall j | j in group && j != keeper :: Preferred(resolved[keeper], resolved[j])
    ensures Superseded(resolved, i) <==> i != keeper
  {
    if i == keeper {
      forall j: nat | j < |resolved| && SameBytes(resolved[i], resolved[j])
        ensures !Preferred(resolved[j], resolved[i])
      {
        LessIsTotal(resolved[i].objectId, resolved[i].objectId);
        if j != i {
          PreferredIsTotal(resolved[i], resolved[j]);
        }
      }
    } else {
      assert SameBytes(resolved[i], resolved[keeper]) && Preferred(resolved[keeper], resolved[i]);
    }
  }

  // No bytes are staged for recycling without being kept: an exact duplicate has exactly one file planned
  // under its own name with the same bytes, and that file is the same film or episode.
  lemma DuplicateIsKeptOnce(resolved: seq<Candidate>, i: nat) returns (kept: nat)
    requires DistinctObjects(resolved) && i < |resolved| && VerdictOn(resolved, i).ExactDuplicate?
    ensures kept < |resolved| && SameBytes(resolved[i], resolved[kept]) && VerdictOn(resolved, kept).Canonical?
    ensures resolved[kept].mediaKey == resolved[i].mediaKey
    ensures forall j: nat | j < |resolved| && SameBytes(resolved[i], resolved[j]) && VerdictOn(resolved, j).Canonical? :: j == kept
  {
    kept := LeastTwin(resolved, i, |resolved|);
    forall j: nat | j < |resolved| && SameBytes(resolved[kept], resolved[j])
      ensures !Preferred(resolved[j], resolved[kept])
    {
      LessIsTotal(resolved[kept].objectId, resolved[kept].objectId);
      if j != kept {
        PreferredIsTotal(resolved[j], resolved[kept]);
      }
    }
  }

  lemma {:induction false} LeastTwin(resolved: seq<Candidate>, i: nat, n: nat) returns (least: nat)
    requires DistinctObjects(resolved) && i < |resolved| && n <= |resolved| && resolved[i].sha1 != ""
    ensures least < |resolved| && SameBytes(resolved[i], resolved[least])
    ensures forall j: nat | j < |resolved| && (j < n || j == i) && j != least && SameBytes(resolved[i], resolved[j]) ::
              Preferred(resolved[least], resolved[j])
  {
    if n == 0 {
      return i;
    }
    least := LeastTwin(resolved, i, n - 1);
    if n - 1 != least {
      PreferredIsTotal(resolved[least], resolved[n - 1]);
      if SameBytes(resolved[i], resolved[n - 1]) && Preferred(resolved[n - 1], resolved[least]) {
        forall j: nat | j < |resolved| && (j < n || j == i) && j != n - 1 && SameBytes(resolved[i], resolved[j])
          ensures Preferred(resolved[n - 1], resolved[j])
        {
          if j != least {
            PreferredIsTransitive(resolved[n - 1], resolved[least], resolved[j]);
          }
        }
        least := n - 1;
      }
    }
  }

  /******* External subtitles *******/

  datatype Node = Node(id: Id, parent: Id, name: string, isFolder: bool, sha1: string)

  datatype Disposition = IsCanonical | IsDuplicate | IsAttachment | IsResidual

  datatype Operation = Operation(
    objectId: Id, parent: Id, expectedName: string, sha1: string,
    directory: string, targetName: string, identity: string, disposition: Disposition)

  datatype Reason = Unbound | Ambiguous | NameConflict

  datatype Finding = Finding(objectId: Id, reason: Reason)

  const VIDEO: set<string> :=
    {".avi", ".flv", ".iso", ".m2ts", ".m4v", ".mkv", ".mov", ".mp4", ".mpeg", ".mpg", ".rm", ".rmvb", ".ts", ".vob", ".webm", ".wmv"}
  const SUBTITLE: set<string> := {".ass", ".idx", ".smi", ".srt", ".ssa", ".sub", ".sup", ".vtt"}
  const MAX_NAME := 250

  // Where the suffix starts: the last dot, unless it is the first or the last character.
  function SuffixAt(name: string): (k: nat)
    ensures k <= |name|
    ensures k < |name| ==> 0 < k && name[k] == '.'
  {
    var dot := LastDot(name, |name|);
    if 0 < dot < |name| - 1 then dot else |name|
  }

  function LastDot(name: string, n: nat): (k: int)
    requires n <= |name|
    ensures -1 <= k < n && (k >= 0 ==> name[k] == '.')
    ensures forall j | k < j < n :: name[j] != '.'
  {
    if n == 0 then -1 else if name[n - 1] == '.' then n - 1 else LastDot(name, n - 1)
  }

  function Stem(name: string): string {
    name[..SuffixAt(name)]
  }

  function Suffix(name: string): string {
    Lower(name[SuffixAt(name)..])
  }

  // The bytes of one character in UTF-8.
  function Utf8Size(c: char): nat {
    if c as int < 0x80 then 1 else if c as int < 0x800 then 2 else if c as int < 0x1_0000 then 3 else 4
  }

  function Utf8Length(s: string): nat {
    if s == "" then 0 else Utf8Size(s[0]) + Utf8Length(s[1..])
  }

  // The longest prefix of whole characters that fits.
  function Fitting(s: string, maximum: nat): string {
    if s == "" || Utf8Size(s[0]) > maximum then "" else [s[0]] + Fitting(s[1..], maximum - Utf8Size(s[0]))
  }

  function WithoutTail(s: string): string {
    if s != "" && (s[|s| - 1] == ' ' || s[|s| - 1] == '.') then WithoutTail(s[..|s| - 1]) else s
  }

  function Trim(s: string, maximum: nat): string {
    if Utf8Length(s) <= maximum then s else WithoutTail(Fitting(s, maximum))
  }

  // A planned video of the same folder whose name the subtitle's extends.
  predicate Binds(op: Operation, node: Node) {
    && op.disposition.IsCanonical? && Suffix(op.expectedName) in VIDEO && op.parent == node.parent
    && (Stem(node.name) == Stem(op.expectedName) || Stem(op.expectedName) + "." <= Stem(node.name))
  }

  function Reach(op: Operation): nat {
    |Stem(op.expectedName)|
  }

  datatype Match = NoMedia | TwoMedia | Media(row: nat)

  // The one longest match, if there is one.
  predicate IsMatch(ops: seq<Operation>, node: Node, m: Match) {
    match m
    case NoMedia => forall i | 0 <= i < |ops| :: !Binds(ops[i], node)
    case TwoMedia => exists i, j | 0 <= i < |ops| && 0 <= j < |ops| ::
      && i != j && Binds(ops[i], node) && Binds(ops[j], node)
      && Reach(ops[i]) == Reach(ops[j])
      && forall k | 0 <= k < |ops| && Binds(ops[k], node) :: Reach(ops[k]) <= Reach(ops[i])
    case Media(row) => row < |ops| && Binds(ops[row], node) && forall k | 0 <= k < |ops| && k != row && Binds(ops[k], node) ::
      Reach(ops[k]) < Reach(ops[row])
  }

  method FindMedia(ops: seq<Operation>, node: Node) returns (m: Match)
    ensures IsMatch(ops, node, m)
  {
    var matches := Matching(ops, node);
    if matches == [] {
      return NoMedia;
    }
    var best := Longest(ops, matches);
    var tied := exists i | i in matches :: i != best && Reach(ops[i]) == Reach(ops[best]);
    m := if tied then TwoMedia else Media(best);
  }

  method Matching(ops: seq<Operation>, node: Node) returns (matches: seq<nat>)
    ensures forall i | i in matches :: i < |ops|
    ensures forall i: nat | i < |ops| :: i in matches <==> Binds(ops[i], node)
  {
    matches := [];
    for i := 0 to |ops|
      invariant forall k | k in matches :: k < i
      invariant forall k: nat | k < i :: k in matches <==> Binds(ops[k], node)
    {
      if Binds(ops[i], node) {
        matches := matches + [i];
      }
    }
  }

  method Longest(ops: seq<Operation>, rows: seq<nat>) returns (best: nat)
    requires rows != [] && forall i | i in rows :: i < |ops|
    ensures best in rows && forall i | i in rows :: Reach(ops[i]) <= Reach(ops[best])
  {
    assert forall k | 0 <= k < |rows| :: rows[k] in rows;
    best := rows[0];
    for k := 0 to |rows|
      invariant best in rows
      invariant forall l | 0 <= l < k :: Reach(ops[rows[l]]) <= Reach(ops[best])
    {
      if Reach(ops[rows[k]]) > Reach(ops[best]) {
        best := rows[k];
      }
    }
  }

  predicate Eligible(planned: set<Id>, node: Node) {
    !node.isFolder && Suffix(node.name) in SUBTITLE && node.id !in planned
  }

  function Planned(ops: seq<Operation>): set<Id> {
    set op | op in ops :: op.objectId
  }

  // The subtitle's name beside its video; the second form is for when the first is taken.
  function TargetName(media: Operation, node: Node, second: bool): string
    requires Binds(media, node) && Suffix(node.name) in SUBTITLE
  {
    var tail := Stem(node.name)[|Stem(media.expectedName)|..];
    var mark := if !second then "" else " [" + (if node.sha1 != "" then Head(node.sha1) else Last(node.id)) + "]";
    assert forall e | e in SUBTITLE :: |e| <= MAX_NAME;
    Trim(Stem(media.targetName) + tail + mark, MAX_NAME - |Suffix(node.name)|) + Suffix(node.name)
  }

  function Head(s: string): string {
    if |s| <= 8 then s else s[..8]
  }

  function Last(s: string): string {
    if |s| <= 8 then s else s[|s| - 8..]
  }

  predicate UniqueTargets(ops: seq<Operation>) {
    forall i, j | 0 <= i < j < |ops| :: ops[i].directory != ops[j].directory || ops[i].targetName != ops[j].targetName
  }

  predicate Taken(ops: seq<Operation>, directory: string, name: string) {
    exists i | 0 <= i < |ops| :: ops[i].directory == directory && ops[i].targetName == name
  }

  // The operation planned for a subtitle, given the operations its name must not collide with.
  predicate IsAttachment(start: seq<Operation>, ops: seq<Operation>, node: Node, op: Operation)
    requires Suffix(node.name) in SUBTITLE
  {
    exists row: nat | row < |start| ::
      && IsMatch(start, node, Media(row))
      && op.objectId == node.id && op.parent == node.parent && op.expectedName == node.name && op.sha1 == node.sha1
      && op.directory == start[row].directory && op.identity == start[row].identity && op.disposition == Disposition.IsAttachment
      && op.targetName == TargetName(start[row], node, Taken(ops, op.directory, TargetName(start[row], node, false)))
      && !Taken(ops, op.directory, op.targetName)
  }

  predicate IsFinding(start: seq<Operation>, ops: seq<Operation>, node: Node, reason: Reason)
    requires Suffix(node.name) in SUBTITLE
  {
    match reason
    case Unbound => IsMatch(start, node, NoMedia)
    case Ambiguous => IsMatch(start, node, TwoMedia)
    case NameConflict => exists row: nat | row < |start| ::
      && IsMatch(start, node, Media(row))
      && Taken(ops, start[row].directory, TargetName(start[row], node, false))
      && Taken(ops, start[row].directory, TargetName(start[row], node, true))
  }

  datatype Outcome = Added(op: Operation) | Reported(reason: Reason)

  predicate IsOutcome(start: seq<Operation>, ops: seq<Operation>, node: Node, o: Outcome)
    requires Suffix(node.name) in SUBTITLE
  {
    match o
    case Added(op) => IsAttachment(start, ops, node, op)
    case Reported(reason) => IsFinding(start, ops, node, reason)
  }

  method Attach(start: seq<Operation>, ops: seq<Operation>, node: Node) returns (o: Outcome)
    requires Suffix(node.name) in SUBTITLE
    ensures IsOutcome(start, ops, node, o)
  {
    var m := FindMedia(start, node);
    match m
    case NoMedia => o := Reported(Unbound);
    case TwoMedia => o := Reported(Ambiguous);
    case Media(row) =>
      var media := start[row];
      var name := TargetName(media, node, false);
      if Taken(ops, media.directory, name) {
        name := TargetName(media, node, true);
      }
      if Taken(ops, media.directory, name) {
        o := Reported(NameConflict);
      } else {
        o := Added(Operation(node.id, node.parent, node.name, node.sha1, media.directory, name, media.identity, Disposition.IsAttachment));
      }
  }

  function Reports(findings: seq<Finding>): set<Id> {
    set f | f in findings :: f.objectId
  }

  function EligibleIds(start: seq<Operation>, nodes: seq<Node>): set<Id> {
    set node | node in nodes && Eligible(Planned(start), node) :: node.id
  }

  predicate DistinctNodes(nodes: seq<Node>) {
    forall i, j | 0 <= i < j < |nodes| :: nodes[i].id != nodes[j].id
  }

  // Operation k was planned for a subtitle against the operations before it.
  predicate AddedFor(start: seq<Operation>, after: seq<Operation>, k: nat, nodes: seq<Node>)
    requires k < |after|
  {
    exists node | node in nodes :: Eligible(Planned(start), node) && IsAttachment(start, after[..k], node, after[k])
  }

  predicate ReportedFor(start: seq<Operation>, after: seq<Operation>, f: Finding, nodes: seq<Node>) {
    exists node | node in nodes ::
      node.id == f.objectId && Eligible(Planned(start), node) && IsFinding(start, after, node, f.reason)
  }

  lemma TakenStays(start: seq<Operation>, ops: seq<Operation>, op: Operation, node: Node, reason: Reason)
    requires Suffix(node.name) in SUBTITLE && IsFinding(start, ops, node, reason)
    ensures IsFinding(start, ops + [op], node, reason)
  {
    if reason.NameConflict? {
      var row: nat :| row < |start| && IsMatch(start, node, Media(row))
        && Taken(ops, start[row].directory, TargetName(start[row], node, false))
        && Taken(ops, start[row].directory, TargetName(start[row], node, true));
      TakenInMore(ops, op, start[row].directory, TargetName(start[row], node, false));
      TakenInMore(ops, op, start[row].directory, TargetName(start[row], node, true));
    }
  }

  lemma TakenInMore(ops: seq<Operation>, op: Operation, directory: string, name: string)
    requires Taken(ops, directory, name)
    ensures Taken(ops + [op], directory, name)
  {
    var i :| 0 <= i < |ops| && ops[i].directory == directory && ops[i].targetName == name;
    assert (ops + [op])[i] == ops[i];
  }

  // Every subtitle not yet planned has exactly one of an operation and a finding.
  predicate Partitioned(start: seq<Operation>, after: seq<Operation>, findings: seq<Finding>, nodes: seq<Node>)
    requires start <= after
  {
    && Planned(after[|start|..]) + Reports(findings) == EligibleIds(start, nodes)
    && Planned(after[|start|..]) !! Reports(findings)
    && (forall k, l | |start| <= k < l < |after| :: after[k].objectId != after[l].objectId)
    && forall k, l | 0 <= k < l < |findings| :: findings[k].objectId != findings[l].objectId
  }

  predicate Justified(start: seq<Operation>, after: seq<Operation>, findings: seq<Finding>, nodes: seq<Node>) {
    && (forall k: nat | |start| <= k < |after| :: AddedFor(start, after, k, nodes))
    && forall f | f in findings :: ReportedFor(start, after, f, nodes)
  }

  lemma EligibleIdsGrow(start: seq<Operation>, nodes: seq<Node>, i: nat)
    requires i < |nodes| && DistinctNodes(nodes)
    ensures EligibleIds(start, nodes[..i + 1]) ==
            EligibleIds(start, nodes[..i]) + if Eligible(Planned(start), nodes[i]) then {nodes[i].id} else {}
    ensures nodes[i].id !in EligibleIds(start, nodes[..i])
  {
    assert nodes[..i + 1] == nodes[..i] + [nodes[i]];
  }

  lemma AddedPartition(start: seq<Operation>, after: seq<Operation>, findings: seq<Finding>, nodes: seq<Node>, i: nat, op: Operation)
    requires i < |nodes| && DistinctNodes(nodes) && start <= after && Partitioned(start, after, findings, nodes[..i])
    requires Eligible(Planned(start), nodes[i]) && op.objectId == nodes[i].id
    ensures Partitioned(start, after + [op], findings, nodes[..i + 1])
  {
    EligibleIdsGrow(start, nodes, i);
    var added := after[|start|..];
    assert (after + [op])[|start|..] == added + [op];
    assert Planned(added + [op]) == Planned(added) + {op.objectId};
    forall k | |start| <= k < |after|
      ensures after[k].objectId != op.objectId
    {
      assert after[k] == added[k - |start|] && after[k].objectId in Planned(added);
    }
  }

  lemma ReportedPartition(start: seq<Operation>, after: seq<Operation>, findings: seq<Finding>, nodes: seq<Node>, i: nat, f: Finding)
    requires i < |nodes| && DistinctNodes(nodes) && start <= after && Partitioned(start, after, findings, nodes[..i])
    requires Eligible(Planned(start), nodes[i]) && f.objectId == nodes[i].id
    ensures Partitioned(start, after, findings + [f], nodes[..i + 1])
  {
    EligibleIdsGrow(start, nodes, i);
    assert Reports(findings + [f]) == Reports(findings) + {f.objectId};
    forall k | 0 <= k < |findings|
      ensures findings[k].objectId != f.objectId
    {
      assert findings[k].objectId in Reports(findings);
    }
  }

  lemma JustifiedMore(start: seq<Operation>, after: seq<Operation>, findings: seq<Finding>, nodes: seq<Node>, i: nat)
    requires i < |nodes| && Justified(start, after, findings, nodes[..i])
    ensures Justified(start, after, findings, nodes[..i + 1])
  {
    assert nodes[..i + 1] == nodes[..i] + [nodes[i]];
    var more := nodes[..i + 1];
    forall k: nat | |start| <= k < |after|
      ensures AddedFor(start, after, k, more)
    {
      assert AddedFor(start, after, k, nodes[..i]);
      var n :| n in nodes[..i] && Eligible(Planned(start), n) && IsAttachment(start, after[..k], n, after[k]);
      assert n in more;
    }
    forall f | f in findings
      ensures ReportedFor(start, after, f, more)
    {
      var n :| n in nodes[..i] && n.id == f.objectId && Eligible(Planned(start), n) && IsFinding(start, after, n, f.reason);
      assert n in more;
    }
  }

  lemma AddedJustified(start: seq<Operation>, after: seq<Operation>, findings: seq<Finding>, nodes: seq<Node>, node: Node, op: Operation)
    requires Justified(start, after, findings, nodes) && node in nodes && Eligible(Planned(start), node) && IsAttachment(start, after, node, op)
    ensures Justified(start, after + [op], findings, nodes)
  {
    forall k: nat | |start| <= k < |after| + 1
      ensures AddedFor(start, after + [op], k, nodes)
    {
      if k < |after| {
        assert (after + [op])[..k] == after[..k];
        assert AddedFor(start, after, k, nodes);
      } else {
        assert (after + [op])[..k] == after;
      }
    }
    forall f | f in findings
      ensures ReportedFor(start, after + [op], f, nodes)
    {
      var n :| n in nodes && n.id == f.objectId && Eligible(Planned(start), n) && IsFinding(start, after, n, f.reason);
      TakenStays(start, after, op, n, f.reason);
    }
  }

  lemma UniqueMore(ops: seq<Operation>, op: Operation)
    requires UniqueTargets(ops) && !Taken(ops, op.directory, op.targetName)
    ensures UniqueTargets(ops + [op])
  {
  }

  // Every subtitle not yet planned gets exactly one of an operation or a finding, and no two
  // operations share a folder and a name that did not before.
  method AugmentSubtitles(start: seq<Operation>, nodes: seq<Node>) returns (after: seq<Operation>, findings: seq<Finding>)
    requires DistinctNodes(nodes)
    ensures start <= after && Partitioned(start, after, findings, nodes) && Justified(start, after, findings, nodes)
    ensures UniqueTargets(start) ==> UniqueTargets(after)
  {
    after, findings := start, [];
    for i := 0 to |nodes|
      invariant start <= after
      invariant Partitioned(start, after, findings, nodes[..i])
      invariant Justified(start, after, findings, nodes[..i])
      invariant UniqueTargets(start) ==> UniqueTargets(after)
    {
      var node := nodes[i];
      EligibleIdsGrow(start, nodes, i);
      JustifiedMore(start, after, findings, nodes, i);
      assert node in nodes[..i + 1];
      if Eligible(Planned(start), node) {
        var outcome := Attach(start, after, node);
        match outcome
        case Added(op) =>
          AddedPartition(start, after, findings, nodes, i, op);
          AddedJustified(start, after, findings, nodes[..i + 1], node, op);
          if UniqueTargets(after) {
            UniqueMore(after, op);
          }
          after := after + [op];
        case Reported(reason) =>
          ReportedPartition(start, after, findings, nodes, i, Finding(node.id, reason));
          findings := findings + [Finding(node.id, reason)];
      }
    }
    assert nodes[..|nodes|] == nodes;
  }
}