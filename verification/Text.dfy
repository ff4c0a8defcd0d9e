// The string operations the services use, on ASCII.
module Text {
  function Lower(s: string): (r: string)
    ensures |r| == |s|
  {
    seq(|s|, i requires 0 <= i < |s| => if 'A' <= s[i] <= 'Z' then (s[i] as int + 32) as char else s[i])
  }

  predicate IsSpace(c: char) {
    c == ' ' || c == '\t' || c == '\n' || c == '\r' || c == '\U{0b}' || c == '\U{0c}'
  }

  // Where a run of spaces from the left ends.
  function FirstInk(s: string, i: nat): (k: nat)
    requires i <= |s|
    ensures i <= k <= |s| && (k < |s| ==> !IsSpace(s[k])) && forall j | i <= j < k :: IsSpace(s[j])
    decreases |s| - i
  {
    if i < |s| && IsSpace(s[i]) then FirstInk(s, i + 1) else i
  }

  function AfterInk(s: string, i: nat, n: nat): (k: nat)
    requires i <= n <= |s|
    ensures i <= k <= n && (i < k ==> !IsSpace(s[k - 1])) && forall j | k <= j < n :: IsSpace(s[j])
    decreases n
  {
    if i < n && IsSpace(s[n - 1]) then AfterInk(s, i, n - 1) else n
  }

  function TrimSpace(s: string): string {
    s[FirstInk(s, 0)..AfterInk(s, FirstInk(s, 0), |s|)]
  }

  lemma TrimSpaceTwice(s: string)
    ensures TrimSpace(TrimSpace(s)) == TrimSpace(s)
  {
    var first := FirstInk(s, 0);
    var after := AfterInk(s, first, |s|);
    var t := TrimSpace(s);
    if t != "" {
      assert t[0] == s[first] && t[|t| - 1] == s[after - 1];
      assert FirstInk(t, 0) == 0 && AfterInk(t, 0, |t|) == |t|;
    }
  }

  // The order of strings, character by character.
  predicate Less(a: string, b: string) {
    if b == "" then false
    else if a == "" then true
    else a[0] < b[0] || (a[0] == b[0] && Less(a[1..], b[1..]))
  }

  lemma {:induction false} LessIsTotal(a: string, b: string)
    ensures a == b || Less(a, b) || Less(b, a)
    ensures !(Less(a, b) && Less(b, a)) && !Less(a, a)
  {
    if a != "" && b != "" {
      LessIsTotal(a[1..], b[1..]);
      if a[0] == b[0] && a[1..] == b[1..] {
        assert a == [a[0]] + a[1..] && b == [b[0]] + b[1..];
      }
    }
    if a != "" {
      LessIsTotal(a[1..], a[1..]);
    }
  }

  lemma {:induction false} LessIsTransitive(a: string, b: string, c: string)
    requires Less(a, b) && Less(b, c)
    ensures Less(a, c)
  {
    if a != "" && a[0] == b[0] == c[0] {
      LessIsTransitive(a[1..], b[1..], c[1..]);
    }
  }
}
