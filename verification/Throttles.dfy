// Two throttles: the sliding window of login attempts and the fixed window of agent tokens. Both take a time
// that was read before the lock, so even with a clock that never goes back the times they handle do: a time may
// lag the largest one handled so far by as long as a thread waited for the lock.
module Throttles {
  import opened Common

  // Times are in nanoseconds.
  const SECOND := 1_000_000_000

  // No time lags an earlier handled one by more than `d`.
  predicate LateBy(times: seq<int>, d: int) {
    forall i, j | 0 <= i < j < |times| :: times[i] - d <= times[j]
  }

  // How many times fall in a closed interval.
  function Count(times: seq<int>, lo: int, hi: int): nat {
    if times == [] then 0
    else Count(times[..|times| - 1], lo, hi) + if lo <= times[|times| - 1] <= hi then 1 else 0
  }

  lemma CountOneMore(times: seq<int>, t: int, lo: int, hi: int)
    ensures Count(times + [t], lo, hi) == Count(times, lo, hi) + if lo <= t <= hi then 1 else 0
  {
    assert (times + [t])[..|times|] == times;
  }

  lemma {:induction false} CountAtMost(times: seq<int>, lo: int, hi: int)
    ensures Count(times, lo, hi) <= |times|
  {
    if times != [] {
      CountAtMost(times[..|times| - 1], lo, hi);
    }
  }

  /******* Login attempts *******/

  const FAIL_WINDOW := 300 * SECOND
  const MAX_FAILURES := 5

  // The times that are not before a cutoff.
  function Recent(times: seq<int>, cutoff: int): seq<int> {
    if times == [] then []
    else
      var last := times[|times| - 1];
      var before := Recent(times[..|times| - 1], cutoff);
      if last >= cutoff then before + [last] else before
  }

  predicate Admits(kept: seq<int>, time: int) {
    |Recent(kept, time - FAIL_WINDOW)| < MAX_FAILURES
  }

  // What one attempt makes of the kept times.
  function Begin(kept: seq<int>, time: int): seq<int> {
    var recent := Recent(kept, time - FAIL_WINDOW);
    if Admits(kept, time) then recent + [time] else recent
  }

  // The kept times after some attempts, in the order they get the lock.
  function Kept(times: seq<int>): seq<int> {
    if times == [] then [] else Begin(Kept(times[..|times| - 1]), times[|times| - 1])
  }

  // The accepted attempts.
  function Taken(times: seq<int>): seq<int> {
    if times == [] then []
    else
      var front, last := times[..|times| - 1], times[|times| - 1];
      if Admits(Kept(front), last) then Taken(front) + [last] else Taken(front)
  }

  // The accepted attempts that still count at a cutoff: those not before it nor before the cutoff of any attempt
  // handled since.
  function Live(times: seq<int>, cutoff: int): nat {
    if times == [] then 0
    else
      var front, last := times[..|times| - 1], times[|times| - 1];
      Live(front, if last - FAIL_WINDOW > cutoff then last - FAIL_WINDOW else cutoff) +
      if Admits(Kept(front), last) && last >= cutoff then 1 else 0
  }

  lemma {:induction false} RecentTwice(times: seq<int>, a: int, b: int)
    ensures Recent(Recent(times, a), b) == Recent(times, if a > b then a else b)
  {
    if times != [] {
      var front, last := times[..|times| - 1], times[|times| - 1];
      RecentTwice(front, a, b);
      if last >= a {
        RecentOneMore(Recent(front, a), last, b);
      }
    }
  }

  lemma RecentOneMore(times: seq<int>, t: int, cutoff: int)
    ensures Recent(times + [t], cutoff) == if t >= cutoff then Recent(times, cutoff) + [t] else Recent(times, cutoff)
  {
    assert (times + [t])[..|times|] == times;
  }

  // The kept times are exactly the accepted attempts that still count.
  lemma {:induction false} KeptIsLive(times: seq<int>, cutoff: int)
    ensures |Recent(Kept(times), cutoff)| == Live(times, cutoff)
  {
    if times != [] {
      var front, last := times[..|times| - 1], times[|times| - 1];
      var a := last - FAIL_WINDOW;
      KeptIsLive(front, if a > cutoff then a else cutoff);
      RecentTwice(Kept(front), a, cutoff);
      if Admits(Kept(front), last) {
        RecentOneMore(Recent(Kept(front), a), last, cutoff);
      }
    }
  }

  lemma {:induction false} RecentKeepsCount(times: seq<int>, cutoff: int, lo: int, hi: int)
    requires cutoff <= lo
    ensures Count(Recent(times, cutoff), lo, hi) == Count(times, lo, hi)
  {
    if times != [] {
      var front, last := times[..|times| - 1], times[|times| - 1];
      RecentKeepsCount(front, cutoff, lo, hi);
      if last >= cutoff {
        CountOneMore(Recent(front, cutoff), last, lo, hi);
      }
    }
  }

  // While no attempt was more than the window after an interval's start, nothing in the interval is pruned.
  lemma {:induction false} NothingPruned(times: seq<int>, lo: int, hi: int)
    requires forall i | 0 <= i < |times| :: times[i] <= lo + FAIL_WINDOW
    ensures Count(Kept(times), lo, hi) == Count(Taken(times), lo, hi)
  {
    if times != [] {
      var front, last := times[..|times| - 1], times[|times| - 1];
      NothingPruned(front, lo, hi);
      RecentKeepsCount(Kept(front), last - FAIL_WINDOW, lo, hi);
      CountOneMore(Recent(Kept(front), last - FAIL_WINDOW), last, lo, hi);
      CountOneMore(Taken(front), last, lo, hi);
    }
  }

  // A closed interval that together with the lateness is no longer than the window holds at most five accepted
  // attempts.
  lemma {:induction false} FivePerWindow(times: seq<int>, d: int, lo: int, hi: int)
    requires LateBy(times, d) && d >= 0 && hi - lo + d <= FAIL_WINDOW
    ensures Count(Taken(times), lo, hi) <= MAX_FAILURES
  {
    if times != [] {
      var front, last := times[..|times| - 1], times[|times| - 1];
      FivePerWindow(front, d, lo, hi);
      if Admits(Kept(front), last) {
        CountOneMore(Taken(front), last, lo, hi);
        if lo <= last <= hi {
          NothingPruned(front, lo, hi);
          RecentKeepsCount(Kept(front), last - FAIL_WINDOW, lo, hi);
          CountAtMost(Recent(Kept(front), last - FAIL_WINDOW), lo, hi);
        }
      }
    }
  }

  // For an attempt no older than any before it, those that count are the accepted ones in the window before it.
  lemma {:induction false} InOrderCounts(times: seq<int>, cutoff: int)
    requires forall i | 0 <= i < |times| :: times[i] <= cutoff + FAIL_WINDOW
    ensures Live(times, cutoff) == Count(Taken(times), cutoff, cutoff + FAIL_WINDOW)
  {
    if times != [] {
      var front, last := times[..|times| - 1], times[|times| - 1];
      InOrderCounts(front, cutoff);
      CountOneMore(Taken(front), last, cutoff, cutoff + FAIL_WINDOW);
    }
  }

  lemma Next(times: seq<int>, t: int)
    ensures Kept(times + [t]) == Begin(Kept(times), t)
    ensures Taken(times + [t]) == if Admits(Kept(times), t) then Taken(times) + [t] else Taken(times)
  {
    assert (times + [t])[..|times|] == times;
  }

  function Repeated(t: int, n: nat): (r: seq<int>)
    ensures |r| == n && forall i | 0 <= i < n :: r[i] == t
  {
    seq(n, _ => t)
  }

  lemma {:induction false} RecentRepeated(t: int, n: nat, cutoff: int)
    ensures Recent(Repeated(t, n), cutoff) == if cutoff <= t then Repeated(t, n) else []
  {
    if n != 0 {
      assert Repeated(t, n) == Repeated(t, n - 1) + [t];
      RecentRepeated(t, n - 1, cutoff);
      RecentOneMore(Repeated(t, n - 1), t, cutoff);
    }
  }

  // Five attempts at once are accepted.
  lemma {:induction false} FirstFive(n: nat)
    requires n <= MAX_FAILURES
    ensures Kept(Repeated(0, n)) == Taken(Repeated(0, n)) == Repeated(0, n)
    ensures forall hi: int | hi >= 0 :: Count(Repeated(0, n), 0, hi) == n
  {
    if n != 0 {
      assert Repeated(0, n) == Repeated(0, n - 1) + [0];
      FirstFive(n - 1);
      Next(Repeated(0, n - 1), 0);
      RecentRepeated(0, n - 1, -FAIL_WINDOW);
      forall hi: int | hi >= 0
        ensures Count(Repeated(0, n), 0, hi) == n
      {
        CountOneMore(Repeated(0, n - 1), 0, 0, hi);
      }
    }
  }

  // Five attempts, one that prunes them, and one that was read before that and comes late: six are accepted in an
  // interval that together with the lateness is just longer than the window.
  lemma SixInAnInterval(w: int, d: int) returns (times: seq<int>)
    requires w >= 0 && d >= 0 && w + d > FAIL_WINDOW
    ensures LateBy(times, d) && Count(Taken(times), 0, w) > MAX_FAILURES
  {
    var t := FAIL_WINDOW + 1;
    var late := if d >= t then 0 else t - d;
    var five := Repeated(0, MAX_FAILURES);
    FirstFive(MAX_FAILURES);
    Next(five, t);
    RecentRepeated(0, MAX_FAILURES, 1);
    Next(five + [t], late);
    RecentOneMore([], t, late - FAIL_WINDOW);
    assert Kept(five + [t]) == [] + [t];
    CountOneMore(five, t, 0, w);
    CountOneMore(five + [t], late, 0, w);
    times := five + [t] + [late];
  }

  // Any closed interval of length `w` of any run holds at most five accepted attempts if and only if the interval
  // together with the lateness is no longer than the window.
  lemma FivePerWindowIff(w: int, d: int)
    requires w >= 0 && d >= 0
    ensures w + d <= FAIL_WINDOW <==>
            forall times, lo, hi | LateBy(times, d) && hi == lo + w :: Count(Taken(times), lo, hi) <= MAX_FAILURES
  {
    if w + d <= FAIL_WINDOW {
      forall times, lo, hi | LateBy(times, d) && hi == lo + w
        ensures Count(Taken(times), lo, hi) <= MAX_FAILURES
      {
        FivePerWindow(times, d, lo, hi);
      }
    } else {
      var times := SixInAnInterval(w, d);
    }
  }

  // The attempts of one client key. The source keeps one such list per key in a dictionary.
  class LoginWindow {
    var failures: seq<int>
    // The times handled since the last clear, in the order they got the lock.
    ghost var handled: seq<int>

    constructor ()
      ensures Valid() && handled == []
    {
      failures, handled := [], [];
    }

    ghost predicate Valid()
      reads this
    {
      failures == Kept(handled)
    }

    // Accepted exactly when fewer than five accepted attempts still count.
    method BeginAttempt(time: int) returns (ok: bool)
      requires Valid()
      modifies this
      ensures Valid() && handled == old(handled) + [time]
      ensures ok <==> Live(old(handled), time - FAIL_WINDOW) < MAX_FAILURES
      ensures Taken(handled) == if ok then Taken(old(handled)) + [time] else Taken(old(handled))
    {
      KeptIsLive(handled, time - FAIL_WINDOW);
      Next(handled, time);
      var current := Recent(failures, time - FAIL_WINDOW);
      ok := |current| < MAX_FAILURES;
      if ok {
        current := current + [time];
      }
      failures, handled := current, handled + [time];
    }

    method Clear()
      requires Valid()
      modifies this
      ensures Valid() && handled == []
    {
      failures, handled := [], [];
    }
  }

  /******* Agent tokens *******/

  const MINUTE := 60 * SECOND

  // One use: the time its caller read, and the token's limit at that moment.
  datatype Use = Use(time: int, limit: int)

  datatype Bucket = Bucket(start: int, count: int)

  function Opens(b: Option<Bucket>, u: Use): bool {
    b.None? || u.time - b.value.start >= MINUTE
  }

  function Allows(b: Option<Bucket>, u: Use): bool {
    Opens(b, u) || b.value.count < u.limit
  }

  // What one use makes of the bucket.
  function Take(b: Option<Bucket>, u: Use): Option<Bucket> {
    if Opens(b, u) then Some(Bucket(u.time, 1))
    else if b.value.count >= u.limit then b
    else Some(b.value.(count := b.value.count + 1))
  }

  function After(us: seq<Use>): Option<Bucket> {
    if us == [] then None else Take(After(us[..|us| - 1]), us[|us| - 1])
  }

  // The times of the accepted uses, and beside them the start of the window each was accepted in.
  function Used(us: seq<Use>): seq<int> {
    if us == [] then []
    else
      var front, last := us[..|us| - 1], us[|us| - 1];
      if Allows(After(front), last) then Used(front) + [last.time] else Used(front)
  }

  function Starts(us: seq<Use>): seq<int> {
    if us == [] then []
    else
      var front, last := us[..|us| - 1], us[|us| - 1];
      if Allows(After(front), last) then Starts(front) + [After(us).value.start] else Starts(front)
  }

  function Times(us: seq<Use>): (r: seq<int>)
    ensures |r| == |us| && forall i | 0 <= i < |us| :: r[i] == us[i].time
  {
    seq(|us|, i requires 0 <= i < |us| => us[i].time)
  }

  // Uses that lag by at most `d`, under limits of at most `most`.
  predicate Run(us: seq<Use>, most: int, d: int) {
    LateBy(Times(us), d) && forall u | u in us :: u.limit <= most
  }

  // How many uses one window accepts: at least the one that opens it.
  function Share(most: int): nat {
    if most < 1 then 1 else most
  }

  // A window accepts no more than its share from use i on.
  predicate Bounded(starts: seq<int>, most: int, i: nat) {
    i + Share(most) < |starts| ==> starts[i] != starts[i + Share(most)]
  }

  predicate WindowsInv(used: seq<int>, starts: seq<int>, most: int, d: int) {
    && |starts| == |used|
    && (forall i | 0 <= i < |used| :: starts[i] - d <= used[i] < starts[i] + MINUTE)
    && (forall i, j | 0 <= i < j < |starts| :: starts[i] == starts[j] || starts[i] + MINUTE <= starts[j])
    && forall i {:trigger Bounded(starts, most, i)} | 0 <= i < |starts| :: Bounded(starts, most, i)
  }

  // The bucket is the last window, with the uses it accepted.
  predicate IsLast(b: Option<Bucket>, starts: seq<int>, most: int) {
    if b.None? then starts == []
    else
      && 1 <= b.value.count <= |starts| && b.value.count <= Share(most)
      && (forall i | |starts| - b.value.count <= i < |starts| :: starts[i] == b.value.start)
      && forall i | 0 <= i < |starts| - b.value.count :: starts[i] != b.value.start
  }

  lemma OpenedWindow(used: seq<int>, starts: seq<int>, most: int, d: int, b: Option<Bucket>, u: Use)
    requires WindowsInv(used, starts, most, d) && IsLast(b, starts, most) && Opens(b, u) && d >= 0
    ensures WindowsInv(used + [u.time], starts + [u.time], most, d) && IsLast(Some(Bucket(u.time, 1)), starts + [u.time], most)
  {
    var more := starts + [u.time];
    forall i | 0 <= i < |starts|
      ensures starts[i] + MINUTE <= u.time
    {
      assert starts[|starts| - 1] == b.value.start;
      assert i == |starts| - 1 || starts[i] == starts[|starts| - 1] || starts[i] + MINUTE <= starts[|starts| - 1];
    }
    forall i: nat | i < |more|
      ensures Bounded(more, most, i)
    {
      assert i < |starts| ==> Bounded(starts, most, i);
    }
  }

  lemma SameWindow(used: seq<int>, starts: seq<int>, most: int, d: int, b: Bucket, u: Use)
    requires WindowsInv(used, starts, most, d) && IsLast(Some(b), starts, most) && b.start - d <= u.time < b.start + MINUTE
    requires b.count < u.limit <= most
    ensures WindowsInv(used + [u.time], starts + [b.start], most, d)
    ensures IsLast(Some(b.(count := b.count + 1)), starts + [b.start], most)
  {
    var last := |starts| - 1;
    var more := starts + [b.start];
    assert starts[last] == b.start;
    assert forall i | 0 <= i < |starts| :: i == last || starts[i] == starts[last] || starts[i] + MINUTE <= starts[last];
    forall i: nat | i < |more|
      ensures Bounded(more, most, i)
    {
      assert i < |starts| ==> Bounded(starts, most, i);
    }
  }

  // Every run keeps its windows apart, and a bucket's window was first by a use that was handled.
  lemma {:induction false} RunKeeps(us: seq<Use>, most: int, d: int)
    requires Run(us, most, d) && d >= 0
    ensures WindowsInv(Used(us), Starts(us), most, d) && IsLast(After(us), Starts(us), most)
    ensures After(us).Some? ==> After(us).value.start in Times(us)
  {
    if us != [] {
      var front, last := us[..|us| - 1], us[|us| - 1];
      assert us == front + [last];
      assert Times(us) == Times(front) + [last.time];
      assert LateBy(Times(front), d) by {
        assert forall i | 0 <= i < |front| :: Times(front)[i] == Times(us)[i];
      }
      RunKeeps(front, most, d);
      var b := After(front);
      if Opens(b, last) {
        OpenedWindow(Used(front), Starts(front), most, d, b, last);
      } else {
        NotTooLate(us, d, b.value.start);
        if b.value.count < last.limit {
          SameWindow(Used(front), Starts(front), most, d, b.value, last);
        }
      }
    }
  }

  lemma NotTooLate(us: seq<Use>, d: int, t: int)
    requires us != [] && LateBy(Times(us), d) && t in Times(us[..|us| - 1])
    ensures t - d <= us[|us| - 1].time
  {
    var front := us[..|us| - 1];
    var k :| 0 <= k < |front| && Times(front)[k] == t;
    assert Times(us)[k] - d <= Times(us)[|front|];
  }

  // Of two accepted uses with two shares between them the later one is later by more than a minute less the lateness.
  lemma TwoSharesApart(us: seq<Use>, most: int, d: int, i: nat, j: nat)
    requires Run(us, most, d) && d >= 0 && i + 2 * Share(most) <= j < |Used(us)|
    ensures Used(us)[j] - Used(us)[i] > MINUTE - d
  {
    RunKeeps(us, most, d);
    var used, starts := Used(us), Starts(us);
    var m := i + Share(most);
    var n := m + Share(most);
    assert Bounded(starts, most, i) && Bounded(starts, most, m);
    assert starts[i] + MINUTE <= starts[m] && starts[m] + MINUTE <= starts[n];
    assert n == j || starts[n] <= starts[j];
  }

  lemma {:induction false} CountFrom(times: seq<int>, lo: int, hi: int, k: nat)
    requires k <= |times| && forall i | 0 <= i < k :: !(lo <= times[i] <= hi)
    ensures Count(times, lo, hi) <= |times| - k
  {
    if |times| > k {
      CountFrom(times[..|times| - 1], lo, hi, k);
    } else if times != [] {
      CountFrom(times[..|times| - 1], lo, hi, k - 1);
    }
  }

  // Few fall in an interval if those that do are close together in the list.
  lemma {:induction false} CountClose(times: seq<int>, lo: int, hi: int, n: nat)
    requires forall i, j | 0 <= i && i + n <= j < |times| && lo <= times[i] <= hi :: !(lo <= times[j] <= hi)
    ensures Count(times, lo, hi) <= n
  {
    if times != [] {
      var front, last := times[..|times| - 1], times[|times| - 1];
      if lo <= last <= hi && |times| > n {
        CountFrom(front, lo, hi, |times| - n);
      } else if |times| <= n {
        CountAtMost(times, lo, hi);
      } else {
        CountClose(front, lo, hi, n);
      }
    }
  }

  // A closed interval that together with the lateness is no longer than a minute, and so any half-open minute less
  // the lateness, holds at most two windows' shares of accepted uses.
  lemma TwoSharesPerMinute(us: seq<Use>, most: int, d: int, lo: int, hi: int)
    requires Run(us, most, d) && d >= 0 && hi - lo + d <= MINUTE
    ensures Count(Used(us), lo, hi) <= 2 * Share(most)
  {
    var used := Used(us);
    forall i, j | 0 <= i && i + 2 * Share(most) <= j < |used| && lo <= used[i] <= hi
      ensures !(lo <= used[j] <= hi)
    {
      TwoSharesApart(us, most, d, i, j);
    }
    CountClose(used, lo, hi, 2 * Share(most));
  }

  /******* Exactly when two shares are a bound *******/

  function Uses(t: int, limit: int, n: nat): (r: seq<Use>)
    ensures |r| == n && forall i | 0 <= i < n :: r[i] == Use(t, limit)
  {
    seq(n, _ => Use(t, limit))
  }

  lemma NextUse(us: seq<Use>, u: Use)
    ensures After(us + [u]) == Take(After(us), u)
    ensures Used(us + [u]) == if Allows(After(us), u) then Used(us) + [u.time] else Used(us)
  {
    assert (us + [u])[..|us|] == us;
  }

  // Uses at one time in an open window that has room for them are all accepted.
  lemma {:induction false} Fill(us: seq<Use>, t: int, limit: int, n: nat, lo: int, hi: int)
    requires After(us).Some? && t - After(us).value.start < MINUTE && After(us).value.count + n <= limit
    ensures After(us + Uses(t, limit, n)) == Some(After(us).value.(count := After(us).value.count + n))
    ensures Count(Used(us + Uses(t, limit, n)), lo, hi) == Count(Used(us), lo, hi) + if lo <= t <= hi then n else 0
  {
    if n == 0 {
      assert us + Uses(t, limit, 0) == us;
    } else {
      var before, after := us + Uses(t, limit, n - 1), us + Uses(t, limit, n);
      assert after == before + [Use(t, limit)];
      Fill(us, t, limit, n - 1, lo, hi);
      FillOne(before, t, limit, lo, hi);
    }
  }

  lemma FillOne(us: seq<Use>, t: int, limit: int, lo: int, hi: int)
    requires After(us).Some? && t - After(us).value.start < MINUTE && After(us).value.count < limit
    ensures After(us + [Use(t, limit)]) == Some(After(us).value.(count := After(us).value.count + 1))
    ensures Count(Used(us + [Use(t, limit)]), lo, hi) == Count(Used(us), lo, hi) + if lo <= t <= hi then 1 else 0
  {
    NextUse(us, Use(t, limit));
    CountOneMore(Used(us), t, lo, hi);
  }

  // A run whose times are at most `top`.
  predicate RunTo(us: seq<Use>, most: int, d: int, top: int) {
    Run(us, most, d) && forall u | u in us :: u.time <= top
  }

  lemma RunMore(us: seq<Use>, more: seq<Use>, most: int, d: int, top: int, t: int)
    requires RunTo(us, most, d, top) && d >= 0 && top - d <= t && forall u | u in more :: u.time == t && u.limit <= most
    ensures RunTo(us + more, most, d, if t > top then t else top)
  {
    var all := us + more;
    forall i, j | 0 <= i < j < |all|
      ensures Times(all)[i] - d <= Times(all)[j]
    {
      if j < |us| {
        assert Times(us)[i] - d <= Times(us)[j];
      } else {
        assert all[j] in more && (i < |us| ==> all[i] in us) && (i >= |us| ==> all[i] in more);
      }
    }
  }

  // A window of which all but the first use come at its end, a full one right after it, and one whose uses were read
  // before it first: with a limit of at least three, more than two shares fall in an interval that together with the
  // lateness is longer than a minute.
  lemma ThreeWindowsInAnInterval(rate: int, c: int, d: int) returns (us: seq<Use>)
    requires rate >= 3 && c >= 1 && d >= 0 && c + d > MINUTE
    ensures Run(us, rate, d) && Count(Used(us), MINUTE - 1, MINUTE - 1 + c) > 2 * rate
  {
    var lo, hi := MINUTE - 1, MINUTE - 1 + c;
    us := OpenAndFill([], 0, MINUTE - 1, rate, rate - 1, d, 0, lo, hi);
    us := OpenAndFill(us, MINUTE, MINUTE, rate, rate - 1, d, MINUTE - 1, lo, hi);
    var late := if 2 * MINUTE - d > lo then 2 * MINUTE - d else lo;
    us := OpenAndFill(us, 2 * MINUTE, late, rate, rate - 1, d, MINUTE, lo, hi);
  }

  // One use opens a window at `t`, and n more come at `s`.
  lemma OpenAndFill(us: seq<Use>, t: int, s: int, rate: int, n: nat, d: int, top: int, lo: int, hi: int) returns (more: seq<Use>)
    requires RunTo(us, rate, d, top) && d >= 0 && top <= t && t - d <= s < t + MINUTE && 1 + n <= rate
    requires After(us).Some? ==> t - After(us).value.start >= MINUTE
    ensures RunTo(more, rate, d, if s > t then s else t) && After(more) == Some(Bucket(t, 1 + n))
    ensures Count(Used(more), lo, hi) ==
            Count(Used(us), lo, hi) + (if lo <= t <= hi then 1 else 0) + if lo <= s <= hi then n else 0
  {
    var first := us + [Use(t, rate)];
    NextUse(us, Use(t, rate));
    CountOneMore(Used(us), t, lo, hi);
    RunMore(us, [Use(t, rate)], rate, d, top, t);
    Fill(first, s, rate, n, lo, hi);
    assert forall u | u in Uses(s, rate, n) :: u == Use(s, rate);
    RunMore(first, Uses(s, rate, n), rate, d, t, s);
    more := first + Uses(s, rate, n);
  }

  // For a limit of at least three, two shares bound every closed interval of length `c` of every run if and only if
  // the interval together with the lateness is no longer than a minute.
  lemma TwoSharesIff(rate: int, c: int, d: int)
    requires rate >= 3 && c >= 1 && d >= 0
    ensures c + d <= MINUTE <==> forall us, lo, hi | Run(us, rate, d) && hi == lo + c :: Count(Used(us), lo, hi) <= 2 * rate
  {
    if c + d <= MINUTE {
      forall us, lo, hi | Run(us, rate, d) && hi == lo + c
        ensures Count(Used(us), lo, hi) <= 2 * rate
      {
        TwoSharesPerMinute(us, rate, d, lo, hi);
      }
    } else {
      var us := ThreeWindowsInAnInterval(rate, c, d);
    }
  }

  lemma FirstUse(rate: int, d: int, lo: int, hi: int)
    requires lo == 0 <= hi && d >= 0
    ensures Run([Use(0, rate)], rate, d) && Count(Used([Use(0, rate)]), lo, hi) == 1
  {
    NextUse([], Use(0, rate));
    CountOneMore([], 0, lo, hi);
    assert [] + [Use(0, rate)] == [Use(0, rate)] && [] + [0] == [0];
  }

  // Within that length, twice the rate is a bound if and only if the rate is positive: any other rate still accepts a
  // first use.
  lemma TwiceTheRateIff(rate: int, c: int, d: int)
    requires c >= 0 && d >= 0 && c + d <= MINUTE
    ensures rate >= 1 <==> forall us, lo, hi | Run(us, rate, d) && hi == lo + c :: Count(Used(us), lo, hi) <= 2 * rate
  {
    if rate >= 1 {
      forall us, lo, hi | Run(us, rate, d) && hi == lo + c
        ensures Count(Used(us), lo, hi) <= 2 * rate
      {
        TwoSharesPerMinute(us, rate, d, lo, hi);
      }
    } else {
      FirstUse(rate, d, 0, c);
    }
  }

  // The uses of one agent token. The source keeps one bucket per token in a map.
  class AgentBucket {
    var bucket: Option<Bucket>
    // The uses handled, in the order they got the lock.
    ghost var handled: seq<Use>

    constructor ()
      ensures Valid() && handled == []
    {
      bucket, handled := None, [];
    }

    ghost predicate Valid()
      reads this
    {
      bucket == After(handled)
    }

    // Accepted exactly when its window is over or not used up.
    method Take(u: Use) returns (ok: bool)
      requires Valid()
      modifies this
      ensures Valid() && handled == old(handled) + [u]
      ensures ok <==> old(bucket).None? || u.time - old(bucket).value.start >= MINUTE || old(bucket).value.count < u.limit
      ensures Used(handled) == if ok then Used(old(handled)) + [u.time] else Used(old(handled))
    {
      NextUse(handled, u);
      handled := handled + [u];
      if bucket.None? || u.time - bucket.value.start >= MINUTE {
        bucket := Some(Bucket(u.time, 1));
        return true;
      }
      if bucket.value.count >= u.limit {
        return false;
      }
      bucket := Some(bucket.value.(count := bucket.value.count + 1));
      ok := true;
    }
  }
}
